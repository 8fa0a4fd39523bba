/**
 A reference reading of the validator as a table of independent rules checked
 in a fixed order: the first rule that does not pass decides the verdict.
 Each rule is evaluated with Python's semantics for its guard, including the
 TypeError raised when a local that holds None is compared with a date-time.
 `ValidateFollowsRuleOrder` shows that `Organiser.Validate` is exactly this
 first-failure reading.
 */
module OrganiserRules {

  import opened Wrappers
  import opened Organiser

  /** How one rule, checked on its own, ends: it passes, it rejects, or it raises. */
  datatype Status = Pass | Fail | Raise

  /** `t < now` for a local that may hold None; comparing None raises TypeError. */
  function InPast(t: Option<Timestamp>, now: Timestamp): Status
  {
    match t
    case None => Raise
    case Some(v) => if v < now then Fail else Pass
  }

  /** Each rule on its own, over the request and the parsed date-times. */
  function Check(rule: Rule, c: Concert, d: Dates, now: Timestamp): Status
  {
    match rule
    case TotalTicketsPositive => if c.totalTickets <= 0 then Fail else Pass
    case PreSaleWithinTotal => if c.preSaleQuality > c.totalTickets then Fail else Pass
    case PreSalePriceNonNegative => if c.preSaleTicketPrice < 0 then Fail else Pass
    case GeneralSalePriceNonNegative => if c.generalSaleTicketPrice < 0 then Fail else Pass
    case PreSaleStartBeforeEnd =>
      if d.preSaleStart.Some? && d.preSaleEnd.Some? && d.preSaleStart.value > d.preSaleEnd.value then Fail else Pass
    case GeneralSaleStartGiven => if d.generalSaleStart.None? then Fail else Pass
    case ConcertStartGiven => if d.concertStart.None? then Fail else Pass
    case PreSaleEndBeforeGeneralSale =>
      if d.preSaleEnd.Some? && d.generalSaleStart.Some? && d.preSaleEnd.value > d.generalSaleStart.value then Fail else Pass
    case PreSaleStartInFuture => if d.preSaleEnd.None? then Pass else InPast(d.preSaleStart, now)
    case GeneralSaleStartInFuture => InPast(d.generalSaleStart, now)
    case ConcertStartInFuture => InPast(d.concertStart, now)
  }

  /** The order in which the handler checks the rules. */
  const RuleOrder: seq<Rule> := [
    TotalTicketsPositive,
    PreSaleWithinTotal,
    PreSalePriceNonNegative,
    GeneralSalePriceNonNegative,
    PreSaleStartBeforeEnd,
    GeneralSaleStartGiven,
    ConcertStartGiven,
    PreSaleEndBeforeGeneralSale,
    PreSaleStartInFuture,
    GeneralSaleStartInFuture,
    ConcertStartInFuture]

  /** The verdict when `rule` stops the chain with status `s`. */
  function Halt(rule: Rule, s: Status): Verdict
  {
    if s == Fail then Rejected(Broken(rule)) else Crashed
  }

  /** Fail-fast evaluation of `rules`: the first rule that does not pass decides. */
  function Decide(rules: seq<Rule>, c: Concert, d: Dates, now: Timestamp): Verdict
    decreases |rules|
  {
    if rules == [] then Accepted(TicketInfo(c))
    else
      var s := Check(rules[0], c, d, now);
      if s == Pass then Decide(rules[1..], c, d, now) else Halt(rules[0], s)
  }

  ghost predicate PassesBefore(rules: seq<Rule>, i: int, c: Concert, d: Dates, now: Timestamp)
    requires i <= |rules|
  {
    forall j :: 0 <= j < i ==> Check(rules[j], c, d, now) == Pass
  }

  /** Rule `i` is the first of `rules` that does not pass. */
  ghost predicate FirstStop(rules: seq<Rule>, i: int, c: Concert, d: Dates, now: Timestamp)
  {
    && 0 <= i < |rules|
    && Check(rules[i], c, d, now) != Pass
    && PassesBefore(rules, i, c, d, now)
  }

  /** The chain accepts exactly when every rule passes, and then with the ticket information. */
  lemma {:induction false} DecideAccepts(rules: seq<Rule>, c: Concert, d: Dates, now: Timestamp)
    ensures Decide(rules, c, d, now).Accepted? <==> PassesBefore(rules, |rules|, c, d, now)
    ensures Decide(rules, c, d, now).Accepted? ==> Decide(rules, c, d, now) == Accepted(TicketInfo(c))
    decreases |rules|
  {
    if rules != [] {
      DecideAccepts(rules[1..], c, d, now);
      if Check(rules[0], c, d, now) == Pass && PassesBefore(rules[1..], |rules| - 1, c, d, now) {
        forall j | 0 <= j < |rules| ensures Check(rules[j], c, d, now) == Pass {
          if j > 0 { assert rules[j] == rules[1..][j - 1]; }
        }
      }
    }
  }

  /** When rule `i` is the first that does not pass, it decides the verdict. */
  lemma {:induction false} DecideStopsAtFirst(rules: seq<Rule>, i: int, c: Concert, d: Dates, now: Timestamp)
    requires FirstStop(rules, i, c, d, now)
    ensures Decide(rules, c, d, now) == Halt(rules[i], Check(rules[i], c, d, now))
    decreases i
  {
    if i > 0 {
      assert Check(rules[0], c, d, now) == Pass;
      assert FirstStop(rules[1..], i - 1, c, d, now) by {
        forall j | 0 <= j < i - 1 ensures Check(rules[1..][j], c, d, now) == Pass {
          assert rules[1..][j] == rules[j + 1];
        }
      }
      DecideStopsAtFirst(rules[1..], i - 1, c, d, now);
    }
  }

  /** When the chain does not accept, some rule is the first that does not pass. */
  lemma {:induction false} DecideHasFirstStop(rules: seq<Rule>, c: Concert, d: Dates, now: Timestamp)
    requires !Decide(rules, c, d, now).Accepted?
    ensures exists i :: FirstStop(rules, i, c, d, now)
    decreases |rules|
  {
    if Check(rules[0], c, d, now) == Pass {
      DecideHasFirstStop(rules[1..], c, d, now);
      var i :| FirstStop(rules[1..], i, c, d, now);
      assert FirstStop(rules, i + 1, c, d, now) by {
        forall j | 0 <= j < i + 1 ensures Check(rules[j], c, d, now) == Pass {
          if j > 0 { assert rules[j] == rules[1..][j - 1]; }
        }
      }
    } else {
      assert FirstStop(rules, 0, c, d, now);
    }
  }

  /** One step of the chain through `RuleOrder`, at position `k`. */
  lemma DecideStep(k: nat, rule: Rule, c: Concert, d: Dates, now: Timestamp)
    requires k < |RuleOrder| && RuleOrder[k] == rule
    ensures Decide(RuleOrder[k..], c, d, now) ==
              if Check(rule, c, d, now) == Pass then Decide(RuleOrder[k + 1..], c, d, now)
              else Halt(rule, Check(rule, c, d, now))
  {
  }

  /**
   The handler's chain of guards is the first-failure reading of `RuleOrder`.
   The proof walks the eleven positions one by one: at each it unfolds one
   step of `Decide` and, where the rule stops the chain, names the verdict
   and returns. Spelling out each step keeps every proof obligation small.
   */
  lemma ValidateFollowsRuleOrder(c: Concert, d: Dates, now: Timestamp)
    ensures ValidateParsed(c, d, now) == Decide(RuleOrder, c, d, now)
  {
    assert RuleOrder[0..] == RuleOrder;
    DecideStep(0, TotalTicketsPositive, c, d, now);
    if Check(TotalTicketsPositive, c, d, now) != Pass {
      assert ValidateParsed(c, d, now) == Halt(TotalTicketsPositive, Check(TotalTicketsPositive, c, d, now));
      return;
    }
    assert Decide(RuleOrder, c, d, now) == Decide(RuleOrder[1..], c, d, now);
    DecideStep(1, PreSaleWithinTotal, c, d, now);
    if Check(PreSaleWithinTotal, c, d, now) != Pass {
      assert ValidateParsed(c, d, now) == Halt(PreSaleWithinTotal, Check(PreSaleWithinTotal, c, d, now));
      return;
    }
    assert Decide(RuleOrder, c, d, now) == Decide(RuleOrder[2..], c, d, now);
    DecideStep(2, PreSalePriceNonNegative, c, d, now);
    if Check(PreSalePriceNonNegative, c, d, now) != Pass {
      assert ValidateParsed(c, d, now) == Halt(PreSalePriceNonNegative, Check(PreSalePriceNonNegative, c, d, now));
      return;
    }
    assert Decide(RuleOrder, c, d, now) == Decide(RuleOrder[3..], c, d, now);
    DecideStep(3, GeneralSalePriceNonNegative, c, d, now);
    if Check(GeneralSalePriceNonNegative, c, d, now) != Pass {
      assert ValidateParsed(c, d, now) == Halt(GeneralSalePriceNonNegative, Check(GeneralSalePriceNonNegative, c, d, now));
      return;
    }
    assert Decide(RuleOrder, c, d, now) == Decide(RuleOrder[4..], c, d, now);
    DecideStep(4, PreSaleStartBeforeEnd, c, d, now);
    if Check(PreSaleStartBeforeEnd, c, d, now) != Pass {
      assert ValidateParsed(c, d, now) == Halt(PreSaleStartBeforeEnd, Check(PreSaleStartBeforeEnd, c, d, now));
      return;
    }
    assert Decide(RuleOrder, c, d, now) == Decide(RuleOrder[5..], c, d, now);
    DecideStep(5, GeneralSaleStartGiven, c, d, now);
    if Check(GeneralSaleStartGiven, c, d, now) != Pass {
      assert ValidateParsed(c, d, now) == Halt(GeneralSaleStartGiven, Check(GeneralSaleStartGiven, c, d, now));
      return;
    }
    assert Decide(RuleOrder, c, d, now) == Decide(RuleOrder[6..], c, d, now);
    DecideStep(6, ConcertStartGiven, c, d, now);
    if Check(ConcertStartGiven, c, d, now) != Pass {
      assert ValidateParsed(c, d, now) == Halt(ConcertStartGiven, Check(ConcertStartGiven, c, d, now));
      return;
    }
    assert Decide(RuleOrder, c, d, now) == Decide(RuleOrder[7..], c, d, now);
    DecideStep(7, PreSaleEndBeforeGeneralSale, c, d, now);
    if Check(PreSaleEndBeforeGeneralSale, c, d, now) != Pass {
      assert ValidateParsed(c, d, now) == Halt(PreSaleEndBeforeGeneralSale, Check(PreSaleEndBeforeGeneralSale, c, d, now));
      return;
    }
    assert Decide(RuleOrder, c, d, now) == Decide(RuleOrder[8..], c, d, now);
    DecideStep(8, PreSaleStartInFuture, c, d, now);
    if Check(PreSaleStartInFuture, c, d, now) != Pass {
      assert ValidateParsed(c, d, now) == Halt(PreSaleStartInFuture, Check(PreSaleStartInFuture, c, d, now));
      return;
    }
    assert Decide(RuleOrder, c, d, now) == Decide(RuleOrder[9..], c, d, now);
    DecideStep(9, GeneralSaleStartInFuture, c, d, now);
    if Check(GeneralSaleStartInFuture, c, d, now) != Pass {
      assert ValidateParsed(c, d, now) == Halt(GeneralSaleStartInFuture, Check(GeneralSaleStartInFuture, c, d, now));
      return;
    }
    assert Decide(RuleOrder, c, d, now) == Decide(RuleOrder[10..], c, d, now);
    DecideStep(10, ConcertStartInFuture, c, d, now);
    assert RuleOrder[11..] == [];
  }

  /**
   Once the date-times parse, the validator accepts exactly when every rule
   passes; otherwise its verdict is the one of the first rule, in source
   order, that does not pass.
   */
  lemma VerdictIsFirstStop(c: Concert, parse: Parser, now: Timestamp)
    requires ParseDates(c, parse).Some?
    ensures Validate(c, parse, now).Accepted? <==>
              PassesBefore(RuleOrder, |RuleOrder|, c, ParseDates(c, parse).value, now)
    ensures !Validate(c, parse, now).Accepted? ==>
              exists i :: && FirstStop(RuleOrder, i, c, ParseDates(c, parse).value, now)
                          && Validate(c, parse, now) == Halt(RuleOrder[i], Check(RuleOrder[i], c, ParseDates(c, parse).value, now))
  {
    var d := ParseDates(c, parse).value;
    ValidateFollowsRuleOrder(c, d, now);
    DecideAccepts(RuleOrder, c, d, now);
    if !Validate(c, parse, now).Accepted? {
      DecideHasFirstStop(RuleOrder, c, d, now);
      var i :| FirstStop(RuleOrder, i, c, d, now);
      DecideStopsAtFirst(RuleOrder, i, c, d, now);
    }
  }

  /** A rule that is the first, in source order, not to pass decides the verdict. */
  lemma FirstStopDecides(c: Concert, parse: Parser, now: Timestamp, i: int)
    requires ParseDates(c, parse).Some?
    requires FirstStop(RuleOrder, i, c, ParseDates(c, parse).value, now)
    ensures Validate(c, parse, now) == Halt(RuleOrder[i], Check(RuleOrder[i], c, ParseDates(c, parse).value, now))
  {
    var d := ParseDates(c, parse).value;
    ValidateFollowsRuleOrder(c, d, now);
    DecideStopsAtFirst(RuleOrder, i, c, d, now);
  }
}
