/** The spend policy: templates checked in the order the account lists them. */
module Policy {
  import opened Text
  import opened Wrappers

  datatype Template = T1 | T2 | T3 | T4 | T5

  datatype Period = Day | Week | Month

  datatype CategoryCap = CategoryCap(category: string, period: Period, cap: int)

  datatype Window = Window(startHour: int, endHour: int, allow: bool)

  datatype Params = Params(t1: Option<CategoryCap>, t2: Option<int>, t3: Option<string>, t4: Option<Window>,
                           t5: Option<int>)

  datatype Spend = Spend(amount: int, category: string, timestamp: int)

  /** The date in UTC, the year and month in UTC, and the local hour of a time in milliseconds. */
  datatype Calendar = Calendar(day: int -> string, month: int -> string, hour: int -> int)

  /** The verdict, with the counters as they stand when the evaluation ends. */
  datatype Verdict =
    | Accepted(confirm: bool, counters: map<string, int>)
    | Refused(rule: Template, counters: map<string, int>)

  function PeriodKey(cal: Calendar, category: string, period: Period, ts: int): string {
    match period
    case Day => category + ":d:" + cal.day(ts)
    case Week => category + ":w:" + Numeral(ts / (7 * 86400000))
    case Month => category + ":m:" + cal.month(ts)
  }

  function Counted(counters: map<string, int>, key: string): int { if key in counters then counters[key] else 0 }

  predicate InWindow(w: Window, hour: int) {
    if w.startHour <= w.endHour then w.startHour <= hour < w.endHour else hour >= w.startHour || hour < w.endHour
  }

  /** On a clock of 24 hours the window runs forward from its start up to its end, past midnight if it must. */
  lemma WindowWraps(w: Window, hour: int)
    requires 0 <= w.startHour < 24 && 0 <= w.endHour < 24 && 0 <= hour < 24
    ensures InWindow(w, hour) <==> (hour - w.startHour) % 24 < (w.endHour - w.startHour) % 24
  {
  }

  /** The key the category cap charges for this spend, when it applies. */
  function Charged(p: Params, s: Spend, cal: Calendar): Option<string> {
    if p.t1.Some? && s.category == p.t1.value.category
    then Some(PeriodKey(cal, p.t1.value.category, p.t1.value.period, s.timestamp))
    else None
  }

  /** Whether a template other than the category cap refuses the spend. */
  predicate Refuses(p: Params, t: Template, s: Spend, cal: Calendar) {
    match t
    case T3 => p.t3.Some? && s.category == p.t3.value
    case T4 => p.t4.Some? && p.t4.value.allow != InWindow(p.t4.value, cal.hour(s.timestamp))
    case T5 => p.t5.Some? && s.amount > p.t5.value
    case _ => false
  }

  /** One template against the counters and the flag so far. */
  function Check(p: Params, t: Template, s: Spend, cal: Calendar, confirm: bool, counters: map<string, int>): Verdict {
    if t == T1 then
      match Charged(p, s, cal)
      case None => Accepted(confirm, counters)
      case Some(key) =>
        if Counted(counters, key) + s.amount > p.t1.value.cap then Refused(T1, counters)
        else Accepted(confirm, counters[key := Counted(counters, key) + s.amount])
    else if Refuses(p, t, s, cal) then Refused(t, counters)
    else Accepted(confirm || (t == T2 && p.t2.Some? && s.amount >= p.t2.value), counters)
  }

  function Evaluate(p: Params, ts: seq<Template>, s: Spend, cal: Calendar, counters: map<string, int>): Verdict {
    if |ts| == 0 then Accepted(false, counters)
    else
      match Evaluate(p, ts[..|ts| - 1], s, cal, counters)
      case Refused(t, c) => Refused(t, c)
      case Accepted(confirm, c) => Check(p, ts[|ts| - 1], s, cal, confirm, c)
  }

  lemma {:induction false} RefusalStands(p: Params, ts: seq<Template>, k: nat, s: Spend, cal: Calendar,
                                         counters: map<string, int>)
    requires k <= |ts| && Evaluate(p, ts[..k], s, cal, counters).Refused?
    ensures Evaluate(p, ts, s, cal, counters) == Evaluate(p, ts[..k], s, cal, counters)
    decreases |ts| - k
  {
    hide Check;
    if k < |ts| {
      assert ts[..k + 1][..k] == ts[..k];
      RefusalStands(p, ts, k + 1, s, cal, counters);
    } else {
      assert ts[..k] == ts;
    }
  }

  lemma EvaluateNone(p: Params, s: Spend, cal: Calendar, counters: map<string, int>)
    ensures Evaluate(p, [], s, cal, counters) == Accepted(false, counters)
  {
  }

  /** One more template after an acceptance; a refusal is final. */
  lemma EvaluateNext(p: Params, ts: seq<Template>, i: nat, s: Spend, cal: Calendar, counters: map<string, int>)
    requires i < |ts| && Evaluate(p, ts[..i], s, cal, counters).Accepted?
    ensures var before := Evaluate(p, ts[..i], s, cal, counters);
      var after := Check(p, ts[i], s, cal, before.confirm, before.counters);
      && Evaluate(p, ts[..i + 1], s, cal, counters) == after
      && (after.Refused? ==> Evaluate(p, ts, s, cal, counters) == after)
  {
    hide Check;
    assert ts[..i + 1][..i] == ts[..i];
    if Evaluate(p, ts[..i + 1], s, cal, counters).Refused? { RefusalStands(p, ts, i + 1, s, cal, counters); }
  }

  method EvaluatePolicy(p: Params, active: seq<Template>, s: Spend, cal: Calendar,
                        periodCounters: map<string, int>) returns (v: Verdict)
    ensures v == Evaluate(p, active, s, cal, periodCounters)
  {
    hide PeriodKey, Evaluate;
    EvaluateNone(p, s, cal, periodCounters);
    var counters, confirm := periodCounters, false;
    for i := 0 to |active|
      invariant Evaluate(p, active[..i], s, cal, periodCounters) == Accepted(confirm, counters)
    {
      var t := active[i];
      EvaluateNext(p, active, i, s, cal, periodCounters);
      if t == T1 && p.t1.Some? {
        if s.category == p.t1.value.category {
          var key := PeriodKey(cal, p.t1.value.category, p.t1.value.period, s.timestamp);
          var next := Counted(counters, key) + s.amount;
          if next > p.t1.value.cap { return Refused(T1, counters); }
          counters := counters[key := next];
        }
      }
      if t == T2 && p.t2.Some? {
        if s.amount >= p.t2.value { confirm := true; }
      }
      if t == T3 && p.t3.Some? {
        if s.category == p.t3.value { return Refused(T3, counters); }
      }
      if t == T4 && p.t4.Some? {
        var inWindow := InWindow(p.t4.value, cal.hour(s.timestamp));
        if p.t4.value.allow && !inWindow { return Refused(T4, counters); }
        if !p.t4.value.allow && inWindow { return Refused(T4, counters); }
      }
      if t == T5 && p.t5.Some? {
        if s.amount > p.t5.value { return Refused(T5, counters); }
      }
    }
    assert active[..|active|] == active;
    v := Accepted(confirm, counters);
  }

  /* The verdict without order */

  function Caps(ts: seq<Template>): nat { multiset(ts)[T1] }

  /** The k-th charge stays within the cap. */
  predicate Fits(p: Params, s: Spend, cal: Calendar, counters: map<string, int>, k: nat) {
    Charged(p, s, cal).Some? ==> Counted(counters, Charged(p, s, cal).value) + k * s.amount <= p.t1.value.cap
  }

  predicate ChargesFit(p: Params, s: Spend, cal: Calendar, counters: map<string, int>, n: nat) {
    forall k :: 1 <= k <= n ==> Fits(p, s, cal, counters, k)
  }

  /** The counters after n charges. */
  function Charge(p: Params, s: Spend, cal: Calendar, counters: map<string, int>, n: nat): map<string, int> {
    match Charged(p, s, cal)
    case None => counters
    case Some(key) => if n == 0 then counters else counters[key := Counted(counters, key) + n * s.amount]
  }

  predicate NeedsConfirm(p: Params, ts: seq<Template>, s: Spend) { T2 in ts && p.t2.Some? && s.amount >= p.t2.value }

  predicate NoneRefuses(p: Params, ts: seq<Template>, s: Spend,
                        cal: Calendar) { forall t :: t in ts ==> !Refuses(p, t, s, cal) }

  /** A spend is accepted exactly when no other template refuses it and each listed category cap leaves room; the
      flag and the counters then follow from how often each template is listed. */
  lemma {:induction false} AcceptedByTemplates(p: Params, ts: seq<Template>, s: Spend, cal: Calendar,
                                       counters: map<string, int>)
    ensures Evaluate(p, ts, s, cal, counters).Accepted? <==>
      NoneRefuses(p, ts, s, cal) && ChargesFit(p, s, cal, counters, Caps(ts))
    ensures Evaluate(p, ts, s, cal, counters).Accepted? ==>
      Evaluate(p, ts, s, cal, counters) == Accepted(NeedsConfirm(p, ts, s), Charge(p, s, cal, counters, Caps(ts)))
  {
    hide Check, Charge, ChargesFit, NoneRefuses, NeedsConfirm, Caps, Refuses;
    if |ts| > 0 {
      var init, t := ts[..|ts| - 1], ts[|ts| - 1];
      assert ts == init + [t];
      AcceptedByTemplates(p, init, s, cal, counters);
      ListedAlso(p, init, t, s, cal);
      var n, confirm := Caps(init), NeedsConfirm(p, init, s);
      if t == T1 {
        ChargeStep(p, s, cal, counters, n, confirm);
      } else {
        OtherStep(p, t, s, cal, confirm, Charge(p, s, cal, counters, n));
      }
    } else {
      NothingListed(p, s, cal, counters);
    }
  }

  /** A spend is accepted exactly when no listed template stands against it: its category is not the blocked one; the
      hour is in the window where the window allows, and outside it where the window forbids; the amount is within the
      limit; and the counter leaves room for one charge for every time the category cap is listed. */
  lemma AcceptedIff(p: Params, ts: seq<Template>, s: Spend, cal: Calendar, counters: map<string, int>)
    ensures var hour := cal.hour(s.timestamp);
      Evaluate(p, ts, s, cal, counters).Accepted? <==>
        && (T3 in ts && p.t3.Some? ==> s.category != p.t3.value)
        && (T4 in ts && p.t4.Some? ==>
             var (w, inside) := (p.t4.value, if p.t4.value.startHour <= p.t4.value.endHour
                                             then p.t4.value.startHour <= hour < p.t4.value.endHour
                                             else hour >= p.t4.value.startHour || hour < p.t4.value.endHour);
             if w.allow then inside else !inside)
        && (T5 in ts && p.t5.Some? ==> s.amount <= p.t5.value)
        && (p.t1.Some? && s.category == p.t1.value.category ==>
             forall k :: 1 <= k <= Caps(ts) ==>
               Counted(counters, PeriodKey(cal, s.category, p.t1.value.period, s.timestamp)) + k * s.amount
                 <= p.t1.value.cap)
    ensures var v := Evaluate(p, ts, s, cal, counters);
      v.Accepted? ==>
        && (v.confirm <==> T2 in ts && p.t2.Some? && s.amount >= p.t2.value)
        && v.counters == if p.t1.Some? && s.category == p.t1.value.category && T1 in ts then
             var key := PeriodKey(cal, s.category, p.t1.value.period, s.timestamp);
             counters[key := Counted(counters, key) + Caps(ts) * s.amount]
           else counters
  {
    hide Evaluate, PeriodKey;
    AcceptedByTemplates(p, ts, s, cal, counters);
    assert T1 in ts <==> Caps(ts) > 0;
    RefusersAre(p, ts, s, cal);
    if p.t1.Some? && s.category == p.t1.value.category {
      FitsIs(p, s, cal, counters, Caps(ts));
    }
  }

  lemma RefusersAre(p: Params, ts: seq<Template>, s: Spend, cal: Calendar)
    ensures NoneRefuses(p, ts, s, cal) <==>
      && (T3 in ts ==> !Refuses(p, T3, s, cal)) && (T4 in ts ==> !Refuses(p, T4, s, cal))
      && (T5 in ts ==> !Refuses(p, T5, s, cal))
  {
  }

  lemma FitsIs(p: Params, s: Spend, cal: Calendar, counters: map<string, int>, n: nat)
    requires p.t1.Some? && s.category == p.t1.value.category
    ensures ChargesFit(p, s, cal, counters, n) <==>
      forall k :: 1 <= k <= n ==>
        Counted(counters, PeriodKey(cal, s.category, p.t1.value.period, s.timestamp)) + k * s.amount
          <= p.t1.value.cap
  {
    hide PeriodKey;
    var before := Counted(counters, PeriodKey(cal, s.category, p.t1.value.period, s.timestamp));
    if ChargesFit(p, s, cal, counters, n) {
      forall k | 1 <= k <= n ensures before + k * s.amount <= p.t1.value.cap { assert Fits(p, s, cal, counters, k); }
    }
  }

  /** A refusal names a listed template that stands against the spend. */
  lemma RefusedMeans(p: Params, ts: seq<Template>, s: Spend, cal: Calendar, counters: map<string, int>)
    requires Evaluate(p, ts, s, cal, counters).Refused?
    ensures var hour := cal.hour(s.timestamp);
      match Evaluate(p, ts, s, cal, counters).rule
      case T1 =>
        && p.t1.Some? && s.category == p.t1.value.category
        && exists k: nat :: k > 0
             && Counted(counters, PeriodKey(cal, s.category, p.t1.value.period, s.timestamp)) + k * s.amount
               > p.t1.value.cap
      case T2 => false
      case T3 => T3 in ts && p.t3 == Some(s.category)
      case T4 => T4 in ts && p.t4.Some? && (p.t4.value.allow <==> !InWindow(p.t4.value, hour))
      case T5 => T5 in ts && p.t5.Some? && s.amount > p.t5.value
  {
    hide Evaluate, PeriodKey, InWindow;
    var k := RefusalPoint(p, ts, s, cal, counters);
    assert k + 1 > 0;
  }

  /** Two spends of one category are charged to one counter exactly when they fall into one period: the same day, the
      same week counted from the epoch, or the same month. */
  lemma SamePeriodIff(cal: Calendar, category: string, period: Period, a: int, b: int)
    ensures PeriodKey(cal, category, period, a) == PeriodKey(cal, category, period, b) <==>
      match period
      case Day => cal.day(a) == cal.day(b)
      case Week => a / 604_800_000 == b / 604_800_000
      case Month => cal.month(a) == cal.month(b)
  {
    hide Numeral;
    match period
    case Day => Tail(category + ":d:", cal.day(a), cal.day(b));
    case Week =>
      Tail(category + ":w:", Numeral(a / (7 * 86400000)), Numeral(b / (7 * 86400000)));
      NumeralRoundTrip(a / (7 * 86400000));
      NumeralRoundTrip(b / (7 * 86400000));
    case Month => Tail(category + ":m:", cal.month(a), cal.month(b));
  }

  lemma Tail(p: string, a: string, b: string)
    ensures p + a == p + b ==> a == b
  {
    if p + a == p + b { assert a == (p + a)[|p|..] && b == (p + b)[|p|..]; }
  }

  lemma NothingListed(p: Params, s: Spend, cal: Calendar, counters: map<string, int>)
    ensures NoneRefuses(p, [], s, cal) && Caps([]) == 0 && ChargesFit(p, s, cal, counters, 0)
    ensures !NeedsConfirm(p, [], s) && Charge(p, s, cal, counters, 0) == counters
  {
  }

  lemma ListedAlso(p: Params, init: seq<Template>, t: Template, s: Spend, cal: Calendar)
    ensures Caps(init + [t]) == Caps(init) + if t == T1 then 1 else 0
    ensures NoneRefuses(p, init + [t], s, cal) <==> NoneRefuses(p, init, s, cal) && !Refuses(p, t, s, cal)
    ensures NeedsConfirm(p, init + [t], s) <==>
      NeedsConfirm(p, init, s) || (t == T2 && p.t2.Some? && s.amount >= p.t2.value)
  {
    hide Refuses;
    assert forall u :: u in init + [t] <==> u in init || u == t;
  }

  lemma ChargeStep(p: Params, s: Spend, cal: Calendar, counters: map<string, int>, n: nat, confirm: bool)
    ensures !Refuses(p, T1, s, cal)
    ensures ChargesFit(p, s, cal, counters, n + 1) ==> ChargesFit(p, s, cal, counters, n)
    ensures ChargesFit(p, s, cal, counters, n) ==>
      (Check(p, T1, s, cal, confirm, Charge(p, s, cal, counters, n)).Accepted?
       <==> ChargesFit(p, s, cal, counters, n + 1))
    ensures Check(p, T1, s, cal, confirm, Charge(p, s, cal, counters, n)).Accepted? ==>
      Check(p, T1, s, cal, confirm, Charge(p, s, cal, counters, n))
        == Accepted(confirm, Charge(p, s, cal, counters, n + 1))
  {
    hide PeriodKey, Charge, Fits;
    ChargeMore(p, s, cal, counters, n, confirm);
    assert ChargesFit(p, s, cal, counters, n + 1) <==>
      ChargesFit(p, s, cal, counters, n) && Fits(p, s, cal, counters, n + 1);
  }

  lemma ChargeMore(p: Params, s: Spend, cal: Calendar, counters: map<string, int>, n: nat, confirm: bool)
    ensures Check(p, T1, s, cal, confirm, Charge(p, s, cal, counters, n)) ==
      if Fits(p, s, cal, counters, n + 1) then Accepted(confirm, Charge(p, s, cal, counters, n + 1))
      else Refused(T1, Charge(p, s, cal, counters, n))
  {
    hide PeriodKey;
    assert (n + 1) * s.amount == n * s.amount + s.amount;
  }

  lemma OtherStep(p: Params, t: Template, s: Spend, cal: Calendar, confirm: bool, counters: map<string, int>)
    requires t != T1
    ensures Check(p, t, s, cal, confirm, counters).Accepted? <==> !Refuses(p, t, s, cal)
    ensures Check(p, t, s, cal, confirm, counters).Accepted? ==>
      Check(p, t, s, cal, confirm, counters)
        == Accepted(confirm || (t == T2 && p.t2.Some? && s.amount >= p.t2.value), counters)
  {
    hide Refuses;
  }

  /** Listing the same templates in another order changes neither whether a spend is accepted nor, when it is, the
      confirmation flag and the counters. */
  lemma OrderIsIrrelevant(p: Params, ts: seq<Template>, us: seq<Template>, s: Spend, cal: Calendar,
                          counters: map<string, int>)
    requires multiset(ts) == multiset(us)
    ensures Evaluate(p, ts, s, cal, counters).Accepted? <==> Evaluate(p, us, s, cal, counters).Accepted?
    ensures Evaluate(p, ts, s, cal, counters).Accepted? ==>
      Evaluate(p, ts, s, cal, counters) == Evaluate(p, us, s, cal, counters)
  {
    hide Evaluate, ChargesFit, Charge, Refuses;
    AcceptedByTemplates(p, ts, s, cal, counters);
    AcceptedByTemplates(p, us, s, cal, counters);
    assert forall t :: t in ts <==> t in multiset(ts);
    assert forall t :: t in us <==> t in multiset(us);
  }

  /* The counters of a refused spend */

  /** A refusal comes after a number of charges that fit; a category cap refuses at the first charge that does not. */
  lemma {:induction false} RefusalPoint(p: Params, ts: seq<Template>, s: Spend, cal: Calendar,
                                        counters: map<string, int>)
    returns (k: nat)
    requires Evaluate(p, ts, s, cal, counters).Refused?
    ensures k <= Caps(ts) && ChargesFit(p, s, cal, counters, k)
    ensures Evaluate(p, ts, s, cal, counters).counters == Charge(p, s, cal, counters, k)
    ensures var rule := Evaluate(p, ts, s, cal, counters).rule;
      if rule == T1 then !Fits(p, s, cal, counters, k + 1) else rule in ts && Refuses(p, rule, s, cal)
  {
    hide Check, Charge, ChargesFit, Fits, NoneRefuses, NeedsConfirm, Caps, Refuses;
    var init, t := ts[..|ts| - 1], ts[|ts| - 1];
    assert ts == init + [t];
    ListedAlso(p, init, t, s, cal);
    if Evaluate(p, init, s, cal, counters).Refused? {
      k := RefusalPoint(p, init, s, cal, counters);
    } else {
      AcceptedByTemplates(p, init, s, cal, counters);
      k := Caps(init);
      if t == T1 {
        ChargeMore(p, s, cal, counters, k, NeedsConfirm(p, init, s));
      } else {
        OtherRefuses(p, t, s, cal, NeedsConfirm(p, init, s), Charge(p, s, cal, counters, k));
      }
    }
  }

  lemma OtherRefuses(p: Params, t: Template, s: Spend, cal: Calendar, confirm: bool, counters: map<string, int>)
    requires t != T1
    ensures Check(p, t, s, cal, confirm, counters).Refused? ==>
      Refuses(p, t, s, cal) && Check(p, t, s, cal, confirm, counters) == Refused(t, counters)
  {
    hide Refuses;
  }

  /** No order of the templates can matter: only the cap refuses, or no charge is made, or the charge changes
      nothing. */
  predicate OrderFree(p: Params, ts: seq<Template>, s: Spend, cal: Calendar, counters: map<string, int>) {
    || NoneRefuses(p, ts, s, cal)
    || Caps(ts) == 0
    || Charged(p, s, cal) == None
    || !Fits(p, s, cal, counters, 1)
    || (s.amount == 0 && Charged(p, s, cal).value in counters)
  }

  /** The counters a refused spend returns are the same for every order of the templates exactly when none can
      matter. */
  lemma RefusedCountersIff(p: Params, ts: seq<Template>, s: Spend, cal: Calendar, counters: map<string, int>)
    requires Evaluate(p, ts, s, cal, counters).Refused?
    ensures (forall us :: multiset(us) == multiset(ts) ==>
              Evaluate(p, us, s, cal, counters).counters == Evaluate(p, ts, s, cal, counters).counters)
      <==> OrderFree(p, ts, s, cal, counters)
  {
    hide Evaluate, OrderFree;
    if OrderFree(p, ts, s, cal, counters) {
      forall us | multiset(us) == multiset(ts)
        ensures Evaluate(p, us, s, cal, counters).counters == Evaluate(p, ts, s, cal, counters).counters
      {
        SameRefusal(p, ts, us, s, cal, counters);
      }
    } else {
      var us, vs := TwoOrders(p, ts, s, cal, counters);
    }
  }

  /** An example of the dependence: a blocked category whose cap has room. */
  lemma RefusedCountersDepend(cal: Calendar)
    ensures var p := Params(Some(CategoryCap("food", Day, 10)), None, Some("food"), None, None);
      var s := Spend(4, "food", 0);
      Evaluate(p, [T1, T3], s, cal, map[]) == Refused(T3, map[PeriodKey(cal, "food", Day, 0) := 4])
      && Evaluate(p, [T3, T1], s, cal, map[]) == Refused(T3, map[])
  {
    hide PeriodKey;
    var p := Params(Some(CategoryCap("food", Day, 10)), None, Some("food"), None, None);
    var s := Spend(4, "food", 0);
    assert [T1, T3][..1] == [T1] && [T3, T1][..1] == [T3] && [T1][..0] == [] && [T3][..0] == [];
    assert Evaluate(p, [T1], s, cal, map[]) == Accepted(false, map[PeriodKey(cal, "food", Day, 0) := 4]);
    assert Evaluate(p, [T3], s, cal, map[]) == Refused(T3, map[]);
  }

  lemma SameTemplates(ts: seq<Template>, us: seq<Template>)
    requires multiset(us) == multiset(ts)
    ensures Caps(us) == Caps(ts) && forall t :: t in us <==> t in ts
  {
    assert forall t :: t in ts <==> t in multiset(ts);
    assert forall t :: t in us <==> t in multiset(us);
  }

  lemma SameRefusal(p: Params, ts: seq<Template>, us: seq<Template>, s: Spend, cal: Calendar,
                    counters: map<string, int>)
    requires Evaluate(p, ts, s, cal, counters).Refused? && multiset(us) == multiset(ts)
    requires OrderFree(p, ts, s, cal, counters)
    ensures Evaluate(p, us, s, cal, counters).counters == Evaluate(p, ts, s, cal, counters).counters
  {
    hide Evaluate, Charge, ChargesFit, Fits, Refuses, Charged, Caps;
    OrderIsIrrelevant(p, ts, us, s, cal, counters);
    SameTemplates(ts, us);
    var k := RefusalPoint(p, ts, s, cal, counters);
    var l := RefusalPoint(p, us, s, cal, counters);
    if NoneRefuses(p, ts, s, cal) {
      FirstMiss(p, s, cal, counters, k, l);
    } else {
      ChargeIdle(p, s, cal, counters, k, Caps(ts));
      ChargeIdle(p, s, cal, counters, l, Caps(ts));
    }
  }

  /** The first charge that does not fit has one number. */
  lemma FirstMiss(p: Params, s: Spend, cal: Calendar, counters: map<string, int>, k: nat, l: nat)
    requires ChargesFit(p, s, cal, counters, k) && !Fits(p, s, cal, counters, k + 1)
    requires ChargesFit(p, s, cal, counters, l) && !Fits(p, s, cal, counters, l + 1)
    ensures k == l
  {
    hide Fits;
  }

  lemma ChargeIdle(p: Params, s: Spend, cal: Calendar, counters: map<string, int>, k: nat, n: nat)
    requires k <= n && ChargesFit(p, s, cal, counters, k)
    requires
      || n == 0 || Charged(p, s, cal) == None || !Fits(p, s, cal, counters, 1)
      || (s.amount == 0 && Charged(p, s, cal).value in counters)
    ensures Charge(p, s, cal, counters, k) == counters
  {
    hide Charged, Fits;
    assert k > 0 ==> Fits(p, s, cal, counters, 1);
    if Charged(p, s, cal).Some? && k > 0 {
      var key := Charged(p, s, cal).value;
      assert counters[key := counters[key] + k * s.amount] == counters;
    }
  }

  /** The templates without one occurrence of t. */
  lemma Dropped(ts: seq<Template>, t: Template) returns (rest: seq<Template>)
    requires t in ts
    ensures multiset(ts) == multiset{t} + multiset(rest)
  {
    var i :| 0 <= i < |ts| && ts[i] == t;
    rest := ts[..i] + ts[i + 1..];
    assert ts == ts[..i] + ([t] + ts[i + 1..]);
  }

  lemma Headed(t: Template, ts: seq<Template>)
    ensures multiset([t] + ts) == multiset{t} + multiset(ts)
  {
  }

  /** Two of the templates can be listed first, in either order. */
  lemma TwoFirst(ts: seq<Template>, r: Template) returns (rest: seq<Template>)
    requires r in ts && Caps(ts) > 0 && r != T1
    ensures multiset([r] + ([T1] + rest)) == multiset(ts) == multiset([T1] + ([r] + rest))
  {
    var others := Dropped(ts, r);
    assert T1 in multiset(others);
    rest := Dropped(others, T1);
    Headed(T1, rest); Headed(r, rest);
    Headed(r, [T1] + rest); Headed(T1, [r] + rest);
  }

  /** Otherwise the refusing template first and the cap first give different counters. */
  lemma TwoOrders(p: Params, ts: seq<Template>, s: Spend, cal: Calendar, counters: map<string, int>)
    returns (us: seq<Template>, vs: seq<Template>)
    requires !OrderFree(p, ts, s, cal, counters)
    ensures multiset(us) == multiset(ts) == multiset(vs)
    ensures Evaluate(p, us, s, cal, counters).counters != Evaluate(p, vs, s, cal, counters).counters
  {
    hide Evaluate, Refuses, Charged, Fits, Charge;
    var r :| r in ts && Refuses(p, r, s, cal);
    NotTheCap(p, r, s, cal);
    var rest := TwoFirst(ts, r);
    us, vs := [r] + ([T1] + rest), [T1] + ([r] + rest);
    RefusesFirst(p, r, [T1] + rest, s, cal, counters);
    CapFirst(p, r, rest, s, cal, counters);
  }

  lemma NotTheCap(p: Params, r: Template, s: Spend, cal: Calendar)
    requires Refuses(p, r, s, cal)
    ensures r != T1
  {
  }

  lemma RefusesFirst(p: Params, r: Template, rest: seq<Template>, s: Spend, cal: Calendar, counters: map<string, int>)
    requires Refuses(p, r, s, cal) && r != T1
    ensures Evaluate(p, [r] + rest, s, cal, counters) == Refused(r, counters)
  {
    hide Refuses;
    var us := [r] + rest;
    assert us[..1] == [r] && [r][..0] == [];
    assert Evaluate(p, [r][..0], s, cal, counters) == Accepted(false, counters);
    RefusalStands(p, us, 1, s, cal, counters);
  }

  lemma CapFirst(p: Params, r: Template, rest: seq<Template>, s: Spend, cal: Calendar, counters: map<string, int>)
    requires Refuses(p, r, s, cal) && r != T1
    requires Charged(p, s, cal).Some? && Fits(p, s, cal, counters, 1)
    requires s.amount != 0 || Charged(p, s, cal).value !in counters
    ensures Evaluate(p, [T1] + ([r] + rest), s, cal, counters).counters != counters
  {
    hide Refuses, PeriodKey;
    var vs := [T1] + ([r] + rest);
    var key := Charged(p, s, cal).value;
    var charged := counters[key := Counted(counters, key) + s.amount];
    assert vs[..2] == [T1, r] && [T1, r][..1] == [T1] && [T1][..0] == [];
    assert Evaluate(p, [], s, cal, counters) == Accepted(false, counters);
    assert Evaluate(p, [T1], s, cal, counters) == Check(p, T1, s, cal, false, counters) == Accepted(false, charged);
    assert Evaluate(p, [T1, r], s, cal, counters) == Refused(r, charged);
    RefusalStands(p, vs, 2, s, cal, counters);
    assert charged[key] != Counted(counters, key) || key !in counters;
  }

  /* Runs that feed accepted counters back */

  function After(p: Params, ts: seq<Template>, spends: seq<Spend>, cal: Calendar): map<string, int> {
    if |spends| == 0 then map[]
    else
      var before := After(p, ts, spends[..|spends| - 1], cal);
      match Evaluate(p, ts, spends[|spends| - 1], cal, before)
      case Accepted(_, counters) => counters
      case Refused(_, _) => before
  }

  /** The sum of the accepted spends that fall under a counter's key. */
  function Spent(p: Params, ts: seq<Template>, spends: seq<Spend>, cal: Calendar, key: string): int {
    if |spends| == 0 then 0
    else
      var init, s := spends[..|spends| - 1], spends[|spends| - 1];
      Spent(p, ts, init, cal, key)
      + if Evaluate(p, ts, s, cal, After(p, ts, init, cal)).Accepted? && Charged(p, s, cal) == Some(key) then s.amount
        else 0
  }

  /** Over any run each counter is the sum of the accepted spends of its category and period, once for every time the
      category cap is listed, and never above the cap. */
  lemma {:induction false} CountersAreSums(p: Params, ts: seq<Template>, spends: seq<Spend>, cal: Calendar, key: string)
    ensures Counted(After(p, ts, spends, cal), key) == Caps(ts) * Spent(p, ts, spends, cal, key)
    ensures key in After(p, ts, spends, cal) ==> p.t1.Some? && After(p, ts, spends, cal)[key] <= p.t1.value.cap
  {
    hide Evaluate, Refuses, Caps, PeriodKey, NeedsConfirm, NoneRefuses;
    if |spends| > 0 {
      var init, s := spends[..|spends| - 1], spends[|spends| - 1];
      CountersAreSums(p, ts, init, cal, key);
      var before := After(p, ts, init, cal);
      AcceptedByTemplates(p, ts, s, cal, before);
      Distribute(Caps(ts), Spent(p, ts, init, cal, key), s.amount);
      if Evaluate(p, ts, s, cal, before).Accepted? && Caps(ts) > 0 { assert Fits(p, s, cal, before, Caps(ts)); }
    }
  }

  lemma Distribute(n: int, a: int, b: int)
    ensures n * (a + b) == n * a + n * b && n * (a + 0) == n * a
  {
  }

  /** So a counter is the sum of what was spent exactly when the cap is listed once, or nothing was spent under it. */
  lemma CounterIsSumIff(p: Params, ts: seq<Template>, spends: seq<Spend>, cal: Calendar, key: string)
    ensures Counted(After(p, ts, spends, cal), key) == Spent(p, ts, spends, cal, key) <==>
      Caps(ts) == 1 || Spent(p, ts, spends, cal, key) == 0
  {
    hide After, Spent, Caps;
    CountersAreSums(p, ts, spends, cal, key);
    Unit(Caps(ts), Spent(p, ts, spends, cal, key));
  }

  lemma Unit(n: int, x: int)
    ensures n * x == x <==> n == 1 || x == 0
  {
    if x != 0 && n != 1 { assert (n - 1) * x != 0; }
  }
}
