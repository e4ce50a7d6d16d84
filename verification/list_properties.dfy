/**
 Properties of the list handler: its result is exactly the order-preserving
 selection of the matching issues, and with no filters it is the project's
 whole issue sequence in insertion order.
 */
module ListProperties {
  import opened Values
  import opened IssueStore
  import opened Handlers

  /** `out` is the subsequence of `src` at the strictly increasing positions
      `idx`, and those positions are exactly the ones `marks` flags. */
  ghost predicate SelectsBy<T>(src: seq<T>, out: seq<T>, idx: seq<nat>, marks: seq<bool>) {
    && |marks| == |src|
    && |idx| == |out|
    && (forall j | 0 <= j < |idx| :: idx[j] < |src| && out[j] == src[idx[j]])
    && (forall j, k | 0 <= j < k < |idx| :: idx[j] < idx[k])
    && (forall i | 0 <= i < |src| :: marks[i] <==> i in idx)
  }

  /** Which issues match the query, position by position. */
  function MatchMask(src: seq<Issue>, query: Query): seq<bool> {
    seq(|src|, i requires 0 <= i < |src| => Matches(src[i], query))
  }

  /** `out` is the order-preserving selection of the issues of `src` that
      match the query, taken at positions `idx`. */
  ghost predicate Selects(src: seq<Issue>, out: seq<Issue>, idx: seq<nat>, query: Query) {
    SelectsBy(src, out, idx, MatchMask(src, query))
  }

  /** Every position moved one place to the right. */
  function Shift(idx: seq<nat>): seq<nat> {
    seq(|idx|, j requires 0 <= j < |idx| => idx[j] + 1)
  }

  lemma ShiftMembers(idx: seq<nat>, i: nat)
    ensures i in Shift(idx) <==> i >= 1 && i - 1 in idx
  {
    if i in Shift(idx) {
      var j :| 0 <= j < |idx| && Shift(idx)[j] == i;
    }
    if i >= 1 && i - 1 in idx {
      var j :| 0 <= j < |idx| && idx[j] == i - 1;
      assert Shift(idx)[j] == i;
    }
  }

  /** Putting one element in front of a selection: it is selected iff its
      mark is set, and every other position moves one to the right. */
  lemma SelectsCons<T>(x: T, src: seq<T>, out: seq<T>, idx: seq<nat>, m: bool, marks: seq<bool>)
    requires SelectsBy(src, out, idx, marks)
    ensures SelectsBy([x] + src, (if m then [x] else []) + out,
                      (if m then [0] else []) + Shift(idx), [m] + marks)
  {
    var src' := [x] + src;
    var idx' := (if m then [0] else []) + Shift(idx);
    var marks' := [m] + marks;
    forall i | 0 <= i < |src'|
      ensures marks'[i] <==> i in idx'
    {
      ShiftMembers(idx, i);
    }
  }

  /** The filter keeps exactly the matching issues, in their original order. */
  lemma {:induction false} FilterSelects(src: seq<Issue>, query: Query) returns (idx: seq<nat>)
    ensures Selects(src, Filter(src, query), idx, query)
  {
    if |src| == 0 {
      idx := [];
    } else {
      var rest := FilterSelects(src[1..], query);
      var m := Matches(src[0], query);
      SelectsCons(src[0], src[1..], Filter(src[1..], query), rest, m, MatchMask(src[1..], query));
      assert [src[0]] + src[1..] == src;
      assert [m] + MatchMask(src[1..], query) == MatchMask(src, query);
      idx := (if m then [0] else []) + Shift(rest);
    }
  }

  /** Appending an issue appends it to the filtered result iff it matches. */
  lemma {:induction false} FilterAppend(s: seq<Issue>, x: Issue, query: Query)
    ensures Filter(s + [x], query) == Filter(s, query) + (if Matches(x, query) then [x] else [])
  {
    if |s| == 0 {
      assert s + [x] == [x];
      assert [x][1..] == [];
    } else {
      assert (s + [x])[1..] == s[1..] + [x];
      FilterAppend(s[1..], x, query);
    }
  }

  /** When every issue matches, the filter returns the sequence unchanged. */
  lemma {:induction false} FilterAll(s: seq<Issue>, query: Query)
    requires forall i | 0 <= i < |s| :: Matches(s[i], query)
    ensures Filter(s, query) == s
  {
    if |s| > 0 {
      FilterAll(s[1..], query);
      assert [s[0]] + s[1..] == s;
    }
  }

  /** When no issue matches, the filter returns nothing. */
  lemma {:induction false} FilterNone(s: seq<Issue>, query: Query)
    requires forall i | 0 <= i < |s| :: !Matches(s[i], query)
    ensures Filter(s, query) == []
  {
    if |s| > 0 {
      FilterNone(s[1..], query);
    }
  }

  /** No filters: the whole project, in insertion order. */
  lemma ListNoFilters(store: Store, project: string, p: nat)
    requires UniqueNames(store)
    requires p < |store| && store[p].name == project
    ensures List(store, project, map[]) == Issues(store[p].issues)
  {
    FindProjectUnique(store, project, p);
    FilterAll(store[p].issues, map[]);
  }

  /** A successful listing is the order-preserving selection of the named
      project's issues that match every filter. */
  lemma ListSelects(store: Store, project: string, p: nat, query: Query) returns (idx: seq<nat>)
    requires UniqueNames(store)
    requires p < |store| && store[p].name == project
    requires List(store, project, query).Issues?
    ensures Selects(store[p].issues, List(store, project, query).issues, idx, query)
  {
    FindProjectUnique(store, project, p);
    idx := FilterSelects(store[p].issues, query);
  }
}
