/** Which task's record stands for an instant when several tasks measured it
    (app/services/kpi_history.py, lines 453 to 472). */
module HistoryWinners {
  import opened Texts
  import opened Wrappers

  datatype Record = Record(at: int, task: string, value: real)

  /** Earlier completed, or completed at the same time and smaller as a text. */
  predicate Older(completed: string -> int, a: Record, b: Record) {
    completed(a.task) < completed(b.task) || (completed(a.task) == completed(b.task) && TextLess(a.task, b.task))
  }

  lemma {:induction false} OlderIsTotal(completed: string -> int, a: Record, b: Record)
    ensures Older(completed, a, b) || a.task == b.task || Older(completed, b, a)
    ensures !(Older(completed, a, b) && Older(completed, b, a)) && !Older(completed, a, a)
  {
    TextTrichotomy(a.task, b.task);
    TextIrreflexive(a.task);
    hide TextLess;
  }

  lemma {:induction false} OlderTransitive(completed: string -> int, a: Record, b: Record, c: Record)
    requires !Older(completed, b, a) && !Older(completed, c, b)
    ensures !Older(completed, c, a)
  {
    TextTrichotomy(b.task, a.task);
    TextTrichotomy(c.task, b.task);
    if TextLess(c.task, a.task) && TextLess(a.task, b.task) { TextTransitive(c.task, a.task, b.task); }
    hide TextLess;
  }

  /** max() with a key: the first of the newest candidates. */
  method Newest(completed: string -> int, candidates: seq<Record>) returns (winner: Record)
    requires candidates != []
    ensures winner in candidates && forall x :: x in candidates ==> !Older(completed, winner, x)
  {
    winner := candidates[0];
    OlderIsTotal(completed, winner, winner);
    for i := 1 to |candidates|
      invariant winner in candidates
      invariant forall x :: x in candidates[..i] ==> !Older(completed, winner, x)
    {
      assert candidates[..i + 1] == candidates[..i] + [candidates[i]];
      OlderIsTotal(completed, winner, candidates[i]);
      OlderIsTotal(completed, candidates[i], candidates[i]);
      if Older(completed, winner, candidates[i]) {
        forall x | x in candidates[..i] ensures !Older(completed, candidates[i], x) {
          OlderTransitive(completed, x, winner, candidates[i]);
        }
        winner := candidates[i];
      }
    }
    assert candidates[..|candidates|] == candidates;
  }

  ghost predicate Ascending(s: seq<Record>) { forall i, j :: 0 <= i < j < |s| ==> s[i].at < s[j].at }

  function Instants(records: seq<Record>): set<int> { set r | r in records :: r.at }

  /** One record for each instant, in order of time, and none of the others at its instant is newer. */
  ghost predicate IsSelection(completed: string -> int, records: seq<Record>, winners: seq<Record>) {
    && Ascending(winners) && Instants(winners) == Instants(records)
    && (forall w :: w in winners ==> IsNewest(completed, records, w))
  }

  method Pick<T(==)>(s: set<T>) returns (x: T)
    requires s != {}
    ensures x in s
  {
    x :| x in s;
  }

  method Earliest(instants: set<int>) returns (first: int)
    requires instants != {}
    ensures first in instants && forall x :: x in instants ==> first <= x
  {
    first := Pick(instants);
    var rest := instants - {first};
    while rest != {}
      invariant rest <= instants && first in instants
      invariant forall x :: x in instants && x !in rest ==> first <= x
      decreases rest
    {
      var x := Pick(rest);
      if x < first { first := x; }
      rest := rest - {x};
    }
  }

  method GroupByInstant(records: seq<Record>) returns (grouped: map<int, seq<Record>>)
    ensures grouped.Keys == Instants(records)
    ensures forall at :: at in grouped ==> grouped[at] != [] && forall x ::
      x in grouped[at] <==> x in records && x.at == at
  {
    grouped := map[];
    for i := 0 to |records|
      invariant forall at :: at in grouped ==> grouped[at] != [] && forall x ::
        x in grouped[at] <==> x in records[..i] && x.at == at
      invariant grouped.Keys == Instants(records[..i])
    {
      var r := records[i];
      assert records[..i + 1] == records[..i] + [r];
      InstantsAppend(records[..i], r);
      hide Instants;
      grouped := grouped[r.at := (if r.at in grouped then grouped[r.at] else []) + [r]];
    }
    assert records[..|records|] == records;
  }

  lemma {:induction false} InstantsAppend(records: seq<Record>, r: Record)
    ensures Instants(records + [r]) == Instants(records) + {r.at}
  {
    assert r in records + [r];
    assert forall x :: x in records ==> x in records + [r];
  }

  /** The selection for the instants that are not in rest, all of them earlier than those in rest. */
  ghost predicate SelectedBefore(completed: string -> int, records: seq<Record>, winners: seq<Record>, rest: set<int>) {
    && Ascending(winners) && Instants(winners) == Instants(records) - rest
    && (forall w, at :: w in winners && at in rest ==> w.at < at)
    && (forall w :: w in winners ==> IsNewest(completed, records, w))
  }

  ghost predicate IsNewest(completed: string -> int, records: seq<Record>, w: Record) {
    w in records && forall x :: x in records && x.at == w.at ==> !Older(completed, w, x)
  }

  lemma {:induction false} SelectNext(completed: string -> int, records: seq<Record>, winners: seq<Record>,
                                      rest: set<int>, winner: Record)
    requires SelectedBefore(completed, records, winners, rest) && rest <= Instants(records)
    requires winner.at in rest && (forall at :: at in rest ==> winner.at <= at) && IsNewest(completed, records, winner)
    ensures SelectedBefore(completed, records, winners + [winner], rest - {winner.at})
  {
    InstantsAppend(winners, winner);
    hide Instants;
    hide IsNewest;
    assert forall w :: w in winners + [winner] <==> w in winners || w == winner;
  }

  /** The selection loop over the sorted instants. */
  method SelectWinners(completed: string -> int, records: seq<Record>) returns (winners: seq<Record>)
    ensures IsSelection(completed, records, winners)
  {
    var grouped := GroupByInstant(records);
    winners := [];
    var rest := grouped.Keys;
    while rest != {}
      invariant rest <= grouped.Keys && SelectedBefore(completed, records, winners, rest)
      decreases rest
    {
      var at := Earliest(rest);
      hide Older; hide SelectedBefore;
      var winner := Newest(completed, grouped[at]);
      SelectNext(completed, records, winners, rest, winner);
      winners := winners + [winner];
      rest := rest - {at};
    }
  }

  /** With one record for each task and instant, the selection does not depend on the order in which the
      tasks are read. */
  lemma {:induction false} SelectionIsUnique(completed: string -> int, records: seq<Record>, others: seq<Record>,
                                             a: seq<Record>, b: seq<Record>)
    requires forall x, y :: x in records && y in records && x.at == y.at && x.task == y.task ==> x == y
    requires forall x :: x in records <==> x in others
    requires IsSelection(completed, records, a) && IsSelection(completed, others, b)
    ensures a == b
  {
    SelectionContains(completed, records, others, a, b);
    SelectionContains(completed, others, records, b, a);
    AscendingIsUnique(a, b);
  }

  lemma {:induction false} SelectionContains(completed: string -> int, records: seq<Record>, others: seq<Record>,
                                             a: seq<Record>, b: seq<Record>)
    requires forall x, y :: x in records && y in records && x.at == y.at && x.task == y.task ==> x == y
    requires forall x :: x in records <==> x in others
    requires IsSelection(completed, records, a) && IsSelection(completed, others, b)
    ensures forall w :: w in a ==> w in b
  {
    hide Ascending;
    hide Older;
    forall w | w in a ensures w in b {
      assert w.at in Instants(a) && Instants(records) == Instants(others);
      assert w.at in Instants(b);
      var v :| v in b && v.at == w.at;
      OlderIsTotal(completed, v, w);
    }
  }

  lemma {:induction false} AscendingIsUnique(a: seq<Record>, b: seq<Record>)
    requires Ascending(a) && Ascending(b) && (forall x :: x in a <==> x in b)
    ensures a == b
  {
    assert (a != [] ==> a[0] in a) && (b != [] ==> b[0] in b);
    if a != [] {
      FirstAgree(a, b);
      assert a == [a[0]] + a[1..] && b == [b[0]] + b[1..];
      hide Ascending;
      forall x ensures x in a[1..] <==> x in b[1..] {
        assert x in a <==> x == a[0] || x in a[1..];
        assert x in b <==> x == b[0] || x in b[1..];
      }
      AscendingIsUnique(a[1..], b[1..]);
    }
  }

  lemma {:induction false} FirstAgree(a: seq<Record>, b: seq<Record>)
    requires Ascending(a) && Ascending(b) && a != [] && b != [] && (forall x :: x in a <==> x in b)
    ensures a[0] == b[0]
  {
    assert a[0] in b && b[0] in a;
    var i :| 0 <= i < |b| && b[i] == a[0];
    var j :| 0 <= j < |a| && a[j] == b[0];
  }
}
