/** Upload progress: block events from native code summed into saturating 64-bit counters. */
module Progress {
  import opened Common

  const MAX := 0xFFFF_FFFF_FFFF_FFFF

  function AtMost(n: nat, max: nat): nat {
    if n > max then max else n
  }

  function Clamp(n: nat): nat {
    AtMost(n, MAX)
  }

  /** Saturating addition of two counters. */
  function Add(a: nat, b: nat): nat {
    Clamp(a + b)
  }

  /** Native code reports signed 64-bit amounts. */
  type Int64 = n: int | -0x8000_0000_0000_0000 <= n < 0x8000_0000_0000_0000

  datatype Amount = Amount(blocks: Int64, bytes: Int64)

  /** `Other` stands for every event code the program does not know. */
  datatype Code = UploadedBlock | ReusedBlock | PlanMade | Other

  datatype Event = Event(code: Code, amount: Amount)

  datatype Plan = Plan(blocks: nat, bytes: nat)

  class Reporter {
    var uploadedBlocks: nat
    var uploadedBytes: nat
    var reusedBlocks: nat
    var reusedBytes: nat
    var expected: Option<Plan>
    /** Every event received, whether or not it counted. */
    ghost var received: seq<Event>

    ghost predicate Valid()
      reads this
    {
      && uploadedBlocks == Clamp(Sum(received, UploadedBlock, true))
      && uploadedBytes == Clamp(Sum(received, UploadedBlock, false))
      && reusedBlocks == Clamp(Sum(received, ReusedBlock, true))
      && reusedBytes == Clamp(Sum(received, ReusedBlock, false))
      && expected == LastPlan(received)
    }

    constructor ()
      ensures Valid() && received == []
    {
      uploadedBlocks, uploadedBytes, reusedBlocks, reusedBytes, expected, received := 0, 0, 0, 0, None, [];
    }

    /** What the reporter shows. */
    function Shown(): (nat, nat, nat, nat, Option<Plan>)
      reads this
    {
      (uploadedBlocks, uploadedBytes, reusedBlocks, reusedBytes, expected)
    }

    /** One native event: unknown codes and negative amounts change nothing, a block is counted under its
        code, and a plan announces what is done by then and what remains. */
    method Receive(e: Event)
      requires Valid()
      modifies this
      ensures Valid() && received == old(received) + [e]
      ensures var (ub, uy, rb, ry, plan) := old(Shown());
              if e.code.Other? || e.amount.blocks < 0 || e.amount.bytes < 0 then Shown() == old(Shown())
              else match e.code
                case UploadedBlock => Shown() == (Add(ub, e.amount.blocks), Add(uy, e.amount.bytes), rb, ry, plan)
                case ReusedBlock => Shown() == (ub, uy, Add(rb, e.amount.blocks), Add(ry, e.amount.bytes), plan)
                case _ => Shown() == (ub, uy, rb, ry, Some(Plan(Clamp(ub + rb + e.amount.blocks),
                                                                Clamp(uy + ry + e.amount.bytes))))
      ensures uploadedBlocks >= old(uploadedBlocks) && uploadedBytes >= old(uploadedBytes)
      ensures reusedBlocks >= old(reusedBlocks) && reusedBytes >= old(reusedBytes)
    {
      if e.code.PlanMade? && Counts(e) {
        Expect(e);
      } else if (e.code.UploadedBlock? || e.code.ReusedBlock?) && Counts(e) {
        Count(e);
      } else {
        SumsSnoc(received, e, true);
        SumsSnoc(received, e, false);
        PlanSnoc(received, e);
        received := received + [e];
      }
    }

    method Count(e: Event)
      requires Valid() && Counts(e) && (e.code.UploadedBlock? || e.code.ReusedBlock?)
      modifies this
      ensures Valid() && received == old(received) + [e] && expected == old(expected)
      ensures var (ub, uy, rb, ry, plan) := old(Shown());
              Shown() == if e.code.UploadedBlock? then (Add(ub, e.amount.blocks), Add(uy, e.amount.bytes), rb, ry, plan)
                         else (ub, uy, Add(rb, e.amount.blocks), Add(ry, e.amount.bytes), plan)
      ensures uploadedBlocks >= old(uploadedBlocks) && uploadedBytes >= old(uploadedBytes)
      ensures reusedBlocks >= old(reusedBlocks) && reusedBytes >= old(reusedBytes)
    {
      SumsSnoc(received, e, true);
      SumsSnoc(received, e, false);
      PlanSnoc(received, e);
      received := received + [e];
      if e.code.UploadedBlock? {
        uploadedBlocks := Add(uploadedBlocks, e.amount.blocks);
        uploadedBytes := Add(uploadedBytes, e.amount.bytes);
      } else {
        reusedBlocks := Add(reusedBlocks, e.amount.blocks);
        reusedBytes := Add(reusedBytes, e.amount.bytes);
      }
    }

    method Expect(e: Event)
      requires Valid() && Counts(e) && e.code.PlanMade?
      modifies this`expected, this`received
      ensures Valid() && received == old(received) + [e]
      ensures expected == Some(Plan(Clamp(uploadedBlocks + reusedBlocks + e.amount.blocks),
                                    Clamp(uploadedBytes + reusedBytes + e.amount.bytes)))
    {
      SumsSnoc(received, e, true);
      SumsSnoc(received, e, false);
      PlanSnoc(received, e);
      var blocks := Announced(uploadedBlocks, reusedBlocks, e.amount.blocks,
                              Sum(received, UploadedBlock, true), Sum(received, ReusedBlock, true));
      var bytes := Announced(uploadedBytes, reusedBytes, e.amount.bytes,
                             Sum(received, UploadedBlock, false), Sum(received, ReusedBlock, false));
      received := received + [e];
      expected := Some(Plan(blocks, bytes));
    }
  }

  lemma AtMostTwice(a: nat, b: nat, c: nat, max: nat)
    ensures AtMost(AtMost(AtMost(a, max) + AtMost(b, max), max) + c, max) == AtMost(a + b + c, max)
  {
    assert AtMost(AtMost(a, max) + AtMost(b, max), max) == AtMost(a + b, max);
  }

  /** Saturating twice over saturated counters is clamping the true sum once. */
  lemma AddTwice(a: nat, b: nat, c: nat)
    ensures Add(Add(Clamp(a), Clamp(b)), c) == Clamp(a + b + c)
  {
    AtMostTwice(a, b, c, MAX);
  }

  /** What is done plus what is still to come, by saturating additions of saturated counters. */
  method Announced(uploaded: nat, reused: nat, remaining: nat, ghost a: nat, ghost b: nat) returns (n: nat)
    requires uploaded == Clamp(a) && reused == Clamp(b)
    ensures n == Clamp(a + b + remaining) && n == Clamp(uploaded + reused + remaining)
  {
    AddTwice(a, b, remaining);
    AddTwice(uploaded, reused, remaining);
    n := Add(Add(uploaded, reused), remaining);
  }

  // ---------------------------------------------------------------- the true totals

  predicate Counts(e: Event) {
    e.amount.blocks >= 0 && e.amount.bytes >= 0
  }

  function Part(e: Event, blocks: bool): nat {
    if !Counts(e) then 0 else if blocks then e.amount.blocks else e.amount.bytes
  }

  /** The unbounded sum of what the events of one kind report. */
  function Sum(events: seq<Event>, code: Code, blocks: bool): nat {
    if events == [] then 0
    else Sum(events[..|events| - 1], code, blocks) + if Last(events).code == code then Part(Last(events), blocks) else 0
  }

  function Total(events: seq<Event>, blocks: bool): nat {
    Sum(events, UploadedBlock, blocks) + Sum(events, ReusedBlock, blocks)
  }

  /** The last plan: everything done by then plus what it announces, clamped. */
  function LastPlan(events: seq<Event>): Option<Plan> {
    if events == [] then None
    else
      var before, e := events[..|events| - 1], Last(events);
      if e.code == PlanMade && Counts(e) then
        Some(Plan(Clamp(Total(before, true) + e.amount.blocks), Clamp(Total(before, false) + e.amount.bytes)))
      else LastPlan(before)
  }

  lemma SumSnoc(events: seq<Event>, e: Event, code: Code, blocks: bool)
    ensures Sum(events + [e], code, blocks) == Sum(events, code, blocks) + if e.code == code then Part(e, blocks) else 0
  {
    assert (events + [e])[..|events|] == events;
  }

  lemma PlanSnoc(events: seq<Event>, e: Event)
    ensures LastPlan(events + [e]) ==
            if e.code == PlanMade && Counts(e) then
              Some(Plan(Clamp(Total(events, true) + e.amount.blocks), Clamp(Total(events, false) + e.amount.bytes)))
            else LastPlan(events)
  {
    assert (events + [e])[..|events|] == events;
  }

  lemma SumsSnoc(events: seq<Event>, e: Event, blocks: bool)
    ensures Sum(events + [e], UploadedBlock, blocks) ==
            Sum(events, UploadedBlock, blocks) + if e.code == UploadedBlock then Part(e, blocks) else 0
    ensures Sum(events + [e], ReusedBlock, blocks) ==
            Sum(events, ReusedBlock, blocks) + if e.code == ReusedBlock then Part(e, blocks) else 0
  {
    SumSnoc(events, e, UploadedBlock, blocks);
    SumSnoc(events, e, ReusedBlock, blocks);
  }

  lemma {:induction false} SumAppend(a: seq<Event>, b: seq<Event>, code: Code, blocks: bool)
    ensures Sum(a + b, code, blocks) == Sum(a, code, blocks) + Sum(b, code, blocks)
  {
    if b == [] {
      assert a + b == a;
    } else {
      var init := b[..|b| - 1];
      assert (a + b)[..|a + b| - 1] == a + init;
      SumAppend(a, init, code, blocks);
    }
  }

  lemma {:induction false} PlanStays(before: seq<Event>, later: seq<Event>)
    requires forall i :: 0 <= i < |later| ==> later[i].code != PlanMade
    ensures LastPlan(before + later) == LastPlan(before)
  {
    if later == [] {
      assert before + later == before;
    } else {
      var init := later[..|later| - 1];
      assert (before + later)[..|before + later| - 1] == before + init;
      PlanStays(before, init);
    }
  }

  /** What the reporter shows as done: uploaded plus reused. */
  function Done(events: seq<Event>, blocks: bool): nat {
    Clamp(Sum(events, UploadedBlock, blocks)) + Clamp(Sum(events, ReusedBlock, blocks))
  }

  function Planned(plan: Plan, blocks: bool): nat {
    if blocks then plan.blocks else plan.bytes
  }

  /**
   After a plan for `remaining`, with no further plan: as long as the totals stay within 64 bits,
   the plan is met exactly when the later events sum to the remainder.
   */
  lemma PlanMetExactly(before: seq<Event>, plan: Event, later: seq<Event>, blocks: bool)
    requires plan.code == PlanMade && Counts(plan)
    requires forall i :: 0 <= i < |later| ==> later[i].code != PlanMade
    requires Total(before + [plan] + later, blocks) <= MAX && Total(before, blocks) + Part(plan, blocks) <= MAX
    ensures var all := before + [plan] + later;
            LastPlan(all).Some? &&
            (Done(all, blocks) == Planned(LastPlan(all).value, blocks) <==> Total(later, blocks) == Part(plan, blocks))
  {
    var planned := before + [plan];
    SumsSnoc(before, plan, blocks);
    PlanSnoc(before, plan);
    PlanStays(planned, later);
    SumAppend(planned, later, UploadedBlock, blocks);
    SumAppend(planned, later, ReusedBlock, blocks);
  }
}
