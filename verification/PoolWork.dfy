/** The work identity of a pool serviced in a cycle: prefix sums against the consumed-work counter. */
module PoolWork {
  import opened Arithmetic

  /** The work a service is charged with: at least one unit. */
  function Charged(work: nat): nat {
    if work > 0 then work else 1
  }

  /** What the first `n` requests of the pool are charged with. */
  function Prefix(works: seq<nat>, n: nat): nat
    requires n <= |works|
  {
    if n == 0 then 0 else Prefix(works, n - 1) + Charged(works[n - 1])
  }

  /** What the service with this number reports, the pool repeating. */
  function Reported(works: seq<nat>, service: nat): nat
    requires works != []
  {
    works[service % |works|]
  }

  /** What the services numbered `from` up to `from + count` are charged with, the pool repeating. */
  function ChargedFrom(works: seq<nat>, from: nat, count: nat): nat
    requires works != []
  {
    if count == 0 then 0 else ChargedFrom(works, from, count - 1) + Charged(Reported(works, from + count - 1))
  }

  /** What the same services report. */
  function ReportedFrom(works: seq<nat>, from: nat, count: nat): nat
    requires works != []
  {
    if count == 0 then 0 else ReportedFrom(works, from, count - 1) + Reported(works, from + count - 1)
  }

  /** How many of them report no work. */
  function IdleFrom(works: seq<nat>, from: nat, count: nat): nat
    requires works != []
  {
    if count == 0 then 0 else IdleFrom(works, from, count - 1) + if Reported(works, from + count - 1) == 0 then 1 else 0
  }

  method PrefixSums(works: seq<nat>) returns (prefix: seq<nat>)
    ensures |prefix| == |works| + 1 && forall n :: 0 <= n <= |works| ==> prefix[n] == Prefix(works, n)
  {
    prefix := [0];
    for i := 0 to |works|
      invariant |prefix| == i + 1 && forall n :: 0 <= n <= i ==> prefix[n] == Prefix(works, n)
    {
      prefix := prefix + [prefix[i] + Charged(works[i])];
    }
  }

  function PrefixWrapped(works: seq<nat>, services: nat): nat
    requires works != []
  {
    services / |works| * Prefix(works, |works|) + Prefix(works, services % |works|)
  }

  lemma NextService(n: nat, services: nat)
    requires 0 < n
    ensures services % n + 1 < n ==> (services + 1) / n == services / n && (services + 1) % n == services % n + 1
    ensures services % n + 1 == n ==> (services + 1) / n == services / n + 1 && (services + 1) % n == 0
  {
    var q, r := services / n, services % n;
    if r + 1 < n {
      Quotients(services + 1, n, q, r + 1);
    } else {
      assert (q + 1) * n == q * n + n;
      Quotients(services + 1, n, q + 1, 0);
    }
  }

  lemma Quotients(x: nat, n: nat, q: nat, r: nat)
    requires 0 < n && r < n && x == q * n + r
    ensures x / n == q && x % n == r
  {
    Division(x, n);
    Unique(x / n, x % n, q, r, n);
  }

  lemma WrappedStep(works: seq<nat>, services: nat)
    requires works != []
    ensures PrefixWrapped(works, services + 1) == PrefixWrapped(works, services) + Charged(Reported(works, services))
  {
    hide Charged;
    var n := |works|;
    NextService(n, services);
    var total, q := Prefix(works, n), services / n;
    assert (q + 1) * total == q * total + total;
    assert services % n + 1 == n ==> total == Prefix(works, services % n) + Charged(works[services % n]);
  }

  /** The closed form is what the services between two counts are charged with, however often the pool wraps. */
  lemma {:induction false} PrefixIsCharged(works: seq<nat>, from: nat, count: nat)
    requires works != []
    ensures PrefixWrapped(works, from + count) - PrefixWrapped(works, from) == ChargedFrom(works, from, count)
  {
    hide PrefixWrapped, Charged;
    if count > 0 {
      PrefixIsCharged(works, from, count - 1);
      WrappedStep(works, from + count - 1);
    }
  }

  lemma {:induction false} ChargedIsReported(works: seq<nat>, from: nat, count: nat)
    requires works != []
    ensures ChargedFrom(works, from, count) == ReportedFrom(works, from, count) + IdleFrom(works, from, count)
  {
    if count > 0 {
      ChargedIsReported(works, from, count - 1);
    }
  }

  lemma {:induction false} IdleIsNone(works: seq<nat>, from: nat, count: nat)
    requires works != []
    ensures IdleFrom(works, from, count) == 0 <==> forall k :: from <= k < from + count ==> Reported(works, k) > 0
  {
    hide Reported;
    if count > 0 {
      IdleIsNone(works, from, count - 1);
      assert Reported(works, from + count - 1) >= 0;
    }
  }

  // A pool whose one request expands nothing: every service is charged, none reports anything.

  lemma {:induction false} IdlePool(from: nat, count: nat)
    ensures ReportedFrom([0], from, count) == 0 && ChargedFrom([0], from, count) == count
  {
    if count > 0 {
      IdlePool(from, count - 1);
    }
  }

  /** So any repetition with a measured service fails the check: the prefix sums exceed the published work by its services. */
  lemma IdlePoolFails(rep: Rep)
    requires rep.useful > 0
    ensures !AllWork([0], [rep])
    ensures PrefixWrapped([0], rep.warmup + rep.useful) - PrefixWrapped([0], rep.warmup) == rep.useful
    ensures ReportedFrom([0], rep.warmup, rep.useful) == 0
  {
    hide PrefixWrapped, ReportedFrom, ChargedFrom;
    IdlePool(rep.warmup, rep.useful);
    PrefixIsCharged([0], rep.warmup, rep.useful);
    assert Reported([0], rep.warmup) == 0;
    assert !Working([0], [rep][0]);
  }

  // ------------------------------------------------------------------------------------------------
  // The serviced cell

  /** One repetition: so many services before the window, so many within it. */
  datatype Rep = Rep(warmup: nat, useful: nat)

  /** No service within the repetition's window reported zero work. */
  predicate Working(works: seq<nat>, rep: Rep)
    requires works != []
  {
    forall k :: rep.warmup <= k < rep.warmup + rep.useful ==> Reported(works, k) > 0
  }

  predicate AllWork(works: seq<nat>, reps: seq<Rep>)
    requires works != []
  {
    forall i :: 0 <= i < |reps| ==> Working(works, reps[i])
  }

  /** The pool cursor and the work counter one quantum updates. */
  class AstarCell {
    const works: seq<nat>
    var next: nat
    var consumed: nat
    /** Services since the last reset. */
    ghost var services: nat

    ghost predicate Valid()
      reads this
    {
      works != [] && next == services % |works|
    }

    constructor (works: seq<nat>)
      requires works != []
      ensures Valid() && this.works == works && services == 0 && consumed == 0
    {
      this.works, next, consumed, services := works, 0, 0, 0;
    }

    method Reset()
      requires works != []
      modifies `next, `services
      ensures Valid() && services == 0
    {
      next, services := 0, 0;
    }

    /** Services the request at the cursor. */
    method Quantum() returns (charged: nat)
      requires Valid()
      modifies `next, `consumed, `services
      ensures Valid() && services == old(services) + 1
      ensures charged == Charged(Reported(works, old(services))) && consumed == old(consumed) + Reported(works, old(services))
    {
      var index := next;
      NextService(|works|, services);
      next := (next + 1) % |works|;
      CursorFollows(|works|, services);
      consumed := consumed + works[index];
      charged := if works[index] > 0 then works[index] else 1;
      services := services + 1;
    }

    /** Runs a repetition's services and reports what the window consumed. */
    method RunRep(rep: Rep) returns (windowWork: nat)
      requires Valid()
      modifies this
      ensures Valid() && consumed >= old(consumed)
      ensures windowWork == ReportedFrom(works, rep.warmup, rep.useful)
    {
      Reset();
      for i := 0 to rep.warmup
        invariant Valid() && services == i && consumed >= old(consumed)
      {
        var _ := Quantum();
      }
      var start := consumed;
      for i := 0 to rep.useful
        invariant Valid() && services == rep.warmup + i && consumed == start + ReportedFrom(works, rep.warmup, i)
      {
        var _ := Quantum();
      }
      windowWork := consumed - start;
    }

    /** The final check: the published window work against the prefix sums, over all repetitions. */
    method CheckWork(reps: seq<Rep>) returns (passes: bool)
      requires Valid()
      modifies this
      ensures passes <==> AllWork(works, reps)
    {
      hide PrefixWrapped, ReportedFrom, ChargedFrom, IdleFrom, AllWork;
      var expected, published := 0, 0;
      ghost var idle := 0;
      NoReps(works, reps);
      for i := 0 to |reps|
        invariant Valid() && expected == published + idle && idle >= 0
        invariant idle == 0 <==> AllWork(works, reps[..i])
      {
        var rep := reps[i];
        var windowWork := RunRep(rep);
        published := published + windowWork;
        PrefixIsCharged(works, rep.warmup, rep.useful);
        ChargedIsReported(works, rep.warmup, rep.useful);
        OneMoreRep(works, reps, i);
        expected := expected + PrefixWrapped(works, rep.warmup + rep.useful) - PrefixWrapped(works, rep.warmup);
        idle := idle + IdleFrom(works, rep.warmup, rep.useful);
      }
      assert reps[..|reps|] == reps;
      passes := expected == published;
    }
  }

  lemma NoReps(works: seq<nat>, reps: seq<Rep>)
    requires works != []
    ensures AllWork(works, reps[..0])
  {
  }

  lemma OneMoreRep(works: seq<nat>, reps: seq<Rep>, i: nat)
    requires works != [] && i < |reps|
    ensures AllWork(works, reps[..i + 1]) <==> AllWork(works, reps[..i]) && IdleFrom(works, reps[i].warmup, reps[i].useful) == 0
  {
    hide IdleFrom, Reported;
    IdleIsNone(works, reps[i].warmup, reps[i].useful);
    assert reps[..i + 1] == reps[..i] + [reps[i]];
    if AllWork(works, reps[..i + 1]) {
      forall j | 0 <= j < i ensures Working(works, reps[..i][j]) {
        assert Working(works, reps[..i + 1][j]);
      }
      assert Working(works, reps[..i + 1][i]);
    }
  }

  lemma CursorFollows(n: nat, services: nat)
    requires 0 < n
    ensures (services % n + 1) % n == (services + 1) % n
  {
    NextService(n, services);
    if services % n + 1 < n {
      Quotients(services % n + 1, n, 0, services % n + 1);
    } else {
      Quotients(n, n, 1, 0);
    }
  }
}
