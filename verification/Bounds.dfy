/**
How many updates a transaction can send, that the bounds are reached, and which
server the second step of a removal talks to.
*/
module Bounds {
  import opened Common
  import opened Dns
  import opened Requests
  import opened Protocol

  // ----- counting -----

  /** The servers from a position on that the hooks let through. */
  function UsableFrom(servers: seq<Server>, from: nat): nat
    decreases |servers| - from
  {
    if from >= |servers| then 0 else (if servers[from].usable then 1 else 0) + UsableFrom(servers, from + 1)
  }

  function Count(d: Option<Domain>): nat {
    if d.None? then 0 else UsableFrom(d.value.servers, 0)
  }

  /** So many servers are not skipped. */
  lemma {:induction false} UsableCounts(servers: seq<Server>, from: nat)
    ensures UsableFrom(servers, from) == |set i | from <= i < |servers| && servers[i].usable|
    decreases |servers| - from
  {
    var all := set i | from <= i < |servers| && servers[i].usable;
    if from < |servers| {
      UsableCounts(servers, from + 1);
      var rest := set i | from + 1 <= i < |servers| && servers[i].usable;
      assert all == if servers[from].usable then {from} + rest else rest;
    } else {
      assert all == {};
    }
  }

  lemma {:induction false} UsableIs(servers: seq<Server>, from: nat)
    ensures var i := NextUsable(servers, from);
      UsableFrom(servers, from) == if i.None? then 0 else 1 + UsableFrom(servers, i.value + 1)
    decreases |servers| - from
  {
    if from < |servers| && !servers[from].usable {
      UsableIs(servers, from + 1);
    }
  }

  /** Servers behind the current one of a phase. */
  ghost function Behind(c: Config, p: Phase): nat {
    if p.Ended? || DomainOf(c, p.leg).None? then 0 else UsableFrom(DomainOf(c, p.leg).value.servers, p.server + 1)
  }

  lemma ChooseCounts(c: Config, l: Leg, from: nat, fwdDone: bool, f: Fault)
    requires DomainOf(c, l).Some?
    ensures var p := Choose(c, l, from, fwdDone, f);
      p.Waiting? ==> p.leg == l && p.tries == 1 && Behind(c, p) + 1 == UsableFrom(DomainOf(c, l).value.servers, from)
    ensures f == NoFault && UsableFrom(DomainOf(c, l).value.servers, from) > 0 ==>
      Choose(c, l, from, fwdDone, f).Waiting? && Choose(c, l, from, fwdDone, f).fwdDone == fwdDone
  {
    UsableIs(DomainOf(c, l).value.servers, from);
  }

  predicate IsBacktrack(p: Phase, r: Reply) {
    p.Waiting? && p.leg == ReplaceFwd && r == Answer(NXDOMAIN)
  }

  /** Which exchanges of a run send it back from replacing to adding. */
  function Marks(c: Config, p: Phase, xs: seq<Exchange>): (marks: seq<bool>)
    ensures |marks| == |xs|
  {
    if xs == [] then []
    else
      var k := |xs| - 1;
      Marks(c, p, xs[..k]) + [IsBacktrack(After(c, p, xs[..k]), xs[k].reply)]
  }

  function Tally(marks: seq<bool>): nat {
    if marks == [] then 0 else Tally(marks[..|marks| - 1]) + if marks[|marks| - 1] then 1 else 0
  }

  /** How many times NXDOMAIN sent the run back from replacing to adding. */
  function Backtracks(c: Config, p: Phase, xs: seq<Exchange>): nat { Tally(Marks(c, p, xs)) }

  lemma {:induction false} TallyConcat(a: seq<bool>, b: seq<bool>)
    ensures Tally(a + b) == Tally(a) + Tally(b)
  {
    if b == [] {
      assert a + b == a;
    } else {
      assert (a + b)[..|a + b| - 1] == a + b[..|b| - 1];
      TallyConcat(a, b[..|b| - 1]);
    }
  }

  lemma TallyOne(b: bool)
    ensures Tally([b]) == if b then 1 else 0
  {
    assert [b][..0] == [];
  }

  lemma {:induction false} MarkAt(c: Config, p: Phase, xs: seq<Exchange>, i: nat)
    requires i < |xs|
    ensures Marks(c, p, xs)[i] == IsBacktrack(After(c, p, xs[..i]), xs[i].reply)
  {
    if i < |xs| - 1 {
      MarkAt(c, p, xs[..|xs| - 1], i);
      assert xs[..|xs| - 1][..i] == xs[..i];
    }
  }

  /** One more exchange. */
  lemma BacktracksOn(c: Config, p: Phase, xs: seq<Exchange>, x: Exchange)
    ensures Backtracks(c, p, xs + [x]) == Backtracks(c, p, xs) + if IsBacktrack(After(c, p, xs), x.reply) then 1 else 0
  {
    assert (xs + [x])[..|xs|] == xs;
    var b := IsBacktrack(After(c, p, xs), x.reply);
    TallyConcat(Marks(c, p, xs), [b]);
    TallyOne(b);
  }

  /** n times t by addition, which the proofs can unfold. */
  function Times(t: nat, n: nat): nat {
    if n == 0 then 0 else t + Times(t, n - 1)
  }

  lemma {:induction false} TimesIs(t: nat, n: nat)
    ensures Times(t, n) == t * n
  {
    if n > 0 {
      TimesIs(t, n - 1);
      assert t * n == t + t * (n - 1);
    }
  }

  lemma {:induction false} TimesSum(t: nat, m: nat, n: nat)
    ensures Times(t, m) + Times(t, n) == Times(t, m + n)
  {
    if m > 0 {
      TimesSum(t, m - 1, n);
    }
  }

  lemma TimesTwo(t: nat, n: nat)
    ensures Times(t, n + 2) == 2 * t + Times(t, n)
  {
    assert Times(t, n + 2) == t + Times(t, n + 1);
  }

  lemma {:induction false} TimesTwice(t: nat, n: nat)
    ensures Times(2 * t, n) == Times(t, 2 * n)
  {
    if n > 0 {
      TimesTwice(t, n - 1);
      TimesTwo(t, 2 * n - 2);
    }
  }

  // ----- the bounds -----

  /** The most requests that can follow the current one, each with all its tries, without backtracking. */
  ghost function Blocks(c: Config, p: Phase): nat
    requires p.Waiting?
  {
    match p.leg
    case AddFwd => 1 + 2 * Behind(c, p) + Count(c.reverse)
    case ReplaceFwd => 2 * Behind(c, p) + Count(c.reverse)
    case ReplaceRev => Behind(c, p)
    case RemoveAddr => 1 + Behind(c, p) + Count(c.reverse)
    case RemoveRRs => Count(c.reverse)
    case RemoveRev => Behind(c, p)
  }

  /** The most updates that can still be sent, the outstanding one included, without backtracking. */
  ghost function Fuel(c: Config, p: Phase): int {
    if p.Ended? then 0 else c.tries - p.tries + 1 + Times(c.tries, Blocks(c, p))
  }

  /** The most requests, each with all its tries, if the transaction backtracks k times. */
  function MostRequests(c: Config, k: nat): nat {
    if c.forward.None? then Count(c.reverse)
    else if Count(c.forward) == 0 then 0
    else if c.change == CHG_ADD then 2 * (Count(c.forward) + k) + Count(c.reverse)
    else Count(c.forward) + 1 + Count(c.reverse)
  }

  /** The most updates. */
  function Most(c: Config, k: nat): nat { c.tries * MostRequests(c, k) }

  lemma MostIs(c: Config, k: nat)
    ensures Most(c, k) == Times(c.tries, MostRequests(c, k))
  {
    TimesIs(c.tries, MostRequests(c, k));
  }

  lemma FirstFuel(c: Config, f: Fault)
    requires First(c, f).Waiting?
    ensures Fuel(c, First(c, f)) == Times(c.tries, MostRequests(c, 0))
  {
    var l := if c.forward.Some? then FirstForward(c) else FirstReverse(c);
    ChooseCounts(c, l, 0, false, f);
  }

  /** A new request at its first try costs at most as many blocks as were left. */
  lemma FreshFuel(c: Config, p: Phase, blocks: nat)
    requires p.Waiting? && p.tries == 1 && Blocks(c, p) + 1 <= blocks
    ensures Fuel(c, p) <= Times(c.tries, blocks)
  {
    TimesSum(c.tries, Blocks(c, p) + 1, blocks - Blocks(c, p) - 1);
  }

  lemma LossFuel(c: Config, p: Phase, f: Fault)
    requires Consistent(c, p) && p.Waiting?
    ensures Fuel(c, OnLoss(c, p, f)) <= Fuel(c, p) - 1
  {
    var q := OnLoss(c, p, f);
    if p.tries < c.tries {
      if q.Waiting? {
        assert q == p.(tries := p.tries + 1) && Behind(c, q) == Behind(c, p);
      }
    } else if p.leg != RemoveRRs {
      ChooseCounts(c, Restart(p.leg), p.server + 1, p.fwdDone, f);
      if q.Waiting? {
        FreshFuel(c, q, Blocks(c, p));
      }
    }
  }

  lemma AcceptFuel(c: Config, p: Phase, f: Fault)
    requires Consistent(c, p) && p.Waiting?
    ensures Fuel(c, OnAccept(c, p.leg, p.fwdDone, f)) <= Fuel(c, p) - 1
  {
    var q := OnAccept(c, p.leg, p.fwdDone, f);
    if q.Waiting? {
      ChooseCounts(c, FirstReverse(c), 0, true, f);
      FreshFuel(c, q, Blocks(c, p));
    }
  }

  lemma ProceedFuel(c: Config, p: Phase, l: Leg, f: Fault)
    requires Consistent(c, p) && p.Waiting?
    requires (p.leg == AddFwd && l == ReplaceFwd) || (p.leg == RemoveAddr && l == RemoveRRs)
    ensures Fuel(c, Launch(l, p.server, 1, p.fwdDone, f)) <= Fuel(c, p) - 1
  {
    var q := Launch(l, p.server, 1, p.fwdDone, f);
    if q.Waiting? {
      FreshFuel(c, q, Blocks(c, p));
    }
  }

  lemma BacktrackFuel(c: Config, p: Phase, f: Fault)
    requires Consistent(c, p) && p.Waiting? && p.leg == ReplaceFwd
    ensures Fuel(c, Launch(AddFwd, p.server, 1, p.fwdDone, f)) <= Fuel(c, p) - 1 + 2 * c.tries
  {
    var q := Launch(AddFwd, p.server, 1, p.fwdDone, f);
    if q.Waiting? {
      assert Behind(c, q) == Behind(c, p);
      FreshFuel(c, q, Blocks(c, p) + 2);
    }
  }

  lemma NextFuel(c: Config, p: Phase, x: Exchange)
    requires Consistent(c, p) && p.Waiting?
    ensures Fuel(c, Next(c, p, x.reply, x.fault))
         <= Fuel(c, p) - 1 + if IsBacktrack(p, x.reply) then 2 * c.tries else 0
  {
    if IsLoss(x.reply) {
      LossFuel(c, p, x.fault);
    } else if x.reply.Answer? {
      match Judge(p.leg, x.reply.rcode)
      case Accept => AcceptFuel(c, p, x.fault);
      case Proceed(l) => if l == AddFwd { BacktrackFuel(c, p, x.fault); } else { ProceedFuel(c, p, l, x.fault); }
      case Reject =>
    }
  }

  /** A rank along a run: every step lowers it by one, except for what it gains. */
  lemma {:induction false} Downhill(rank: seq<int>, gain: seq<nat>)
    requires |rank| == |gain| + 1
    requires forall i :: 0 <= i < |gain| ==> rank[i + 1] <= rank[i] - 1 + gain[i]
    ensures |gain| + rank[|gain|] <= rank[0] + Total(gain)
    decreases |gain|
  {
    if gain != [] {
      Downhill(rank[..|gain|], gain[..|gain| - 1]);
    }
  }

  function Total(gain: seq<nat>): nat {
    if gain == [] then 0 else Total(gain[..|gain| - 1]) + gain[|gain| - 1]
  }

  /** What the marked exchanges gain. */
  function Gains(marks: seq<bool>, bonus: nat): seq<nat> {
    seq(|marks|, i requires 0 <= i < |marks| => if marks[i] then bonus else 0)
  }

  lemma {:induction false} GainsTotal(marks: seq<bool>, bonus: nat)
    ensures Total(Gains(marks, bonus)) == Times(bonus, Tally(marks))
  {
    if marks != [] {
      var init := marks[..|marks| - 1];
      GainsTotal(init, bonus);
      assert Gains(marks, bonus)[..|marks| - 1] == Gains(init, bonus);
    }
  }

  lemma FuelAt(c: Config, f: Fault, xs: seq<Exchange>, i: nat)
    requires i < |xs| && Run(c, f, xs[..i]).Waiting?
    ensures Fuel(c, Run(c, f, xs[..i + 1]))
         <= Fuel(c, Run(c, f, xs[..i])) - 1 + if Marks(c, First(c, f), xs)[i] then 2 * c.tries else 0
  {
    MarkAt(c, First(c, f), xs, i);
    RunConsistent(c, f, xs[..i]);
    NextFuel(c, Run(c, f, xs[..i]), xs[i]);
    assert xs[..i + 1][..i] == xs[..i];
  }

  /** Updates sent plus those that can still follow never exceed what the first phase had, plus two
      requests for every backtrack. */
  lemma RunFuel(c: Config, f: Fault, xs: seq<Exchange>)
    requires Run(c, f, xs).Waiting?
    ensures |xs| + Fuel(c, Run(c, f, xs)) <= Fuel(c, First(c, f)) + Times(2 * c.tries, Backtracks(c, First(c, f), xs))
  {
    var marks := Marks(c, First(c, f), xs);
    var gain := Gains(marks, 2 * c.tries);
    var rank := seq(|xs| + 1, i requires 0 <= i <= |xs| => Fuel(c, Run(c, f, xs[..i])));
    forall i | 0 <= i < |gain| ensures rank[i + 1] <= rank[i] - 1 + gain[i] {
      StillWaiting(c, f, xs, i);
      FuelAt(c, f, xs, i);
    }
    Downhill(rank, gain);
    GainsTotal(marks, 2 * c.tries);
    assert xs[..0] == [] && xs[..|xs|] == xs;
  }

  /** A run that is waiting has been waiting all the time. */
  lemma {:induction false} StillWaiting(c: Config, f: Fault, xs: seq<Exchange>, i: nat)
    requires Run(c, f, xs).Waiting? && i <= |xs|
    ensures Run(c, f, xs[..i]).Waiting?
    decreases |xs|
  {
    if i < |xs| {
      StillWaiting(c, f, xs[..|xs| - 1], i);
      assert xs[..|xs| - 1][..i] == xs[..i];
    } else {
      assert xs[..i] == xs;
    }
  }

  /** Only an add with a usable forward server can backtrack. */
  predicate MayBacktrack(c: Config) { c.change == CHG_ADD && Count(c.forward) > 0 }

  lemma {:induction false} BacktracksOnlyInAdd(c: Config, f: Fault, xs: seq<Exchange>)
    ensures Backtracks(c, First(c, f), xs) > 0 ==> MayBacktrack(c)
  {
    if xs != [] {
      var k := |xs| - 1;
      BacktracksOnlyInAdd(c, f, xs[..k]);
      RunConsistent(c, f, xs[..k]);
      assert xs == xs[..k] + [xs[k]];
      BacktracksOn(c, First(c, f), xs[..k], xs[k]);
      var p := Run(c, f, xs[..k]);
      if IsBacktrack(p, xs[k].reply) {
        UsableServerCounts(c.forward.value.servers, p.server, 0);
      }
    }
  }

  lemma UsableServerCounts(servers: seq<Server>, i: nat, from: nat)
    requires from <= i < |servers| && servers[i].usable
    ensures UsableFrom(servers, from) > 0
    decreases i - from
  {
    if from < i {
      UsableServerCounts(servers, i, from + 1);
    }
  }

  /** A run that is still waiting after |xs| exchanges has sent |xs| + 1 updates. */
  lemma SendsAreBounded(c: Config, f: Fault, xs: seq<Exchange>)
    requires Run(c, f, xs).Waiting?
    ensures |xs| + 1 <= Most(c, Backtracks(c, First(c, f), xs))
  {
    RunFuel(c, f, xs);
    SomeFuel(c, f, xs);
    StillWaiting(c, f, xs, 0);
    FirstFuel(c, f);
    BacktracksOnlyInAdd(c, f, xs);
    MostGrows(c, Backtracks(c, First(c, f), xs));
  }

  /** One exchange more: the phase that follows, and the bound on what has been sent then. */
  lemma RunOn(c: Config, f: Fault, xs: seq<Exchange>, i: nat)
    requires i < |xs|
    ensures Run(c, f, xs[..i + 1]) == Next(c, Run(c, f, xs[..i]), xs[i].reply, xs[i].fault)
    ensures Run(c, f, xs[..i + 1]).Waiting? ==> i + 2 <= Most(c, Backtracks(c, First(c, f), xs[..i + 1]))
    ensures Most(c, Backtracks(c, First(c, f), xs[..i])) <= Most(c, Backtracks(c, First(c, f), xs[..i + 1]))
  {
    assert xs[..i + 1] == xs[..i] + [xs[i]];
    assert xs[..i + 1][..i] == xs[..i];
    if Run(c, f, xs[..i + 1]).Waiting? {
      SendsAreBounded(c, f, xs[..i + 1]);
    }
    BacktracksOn(c, First(c, f), xs[..i], xs[i]);
    MoreIsMost(c, Backtracks(c, First(c, f), xs[..i]), Backtracks(c, First(c, f), xs[..i + 1]));
  }

  lemma MoreIsMost(c: Config, j: nat, k: nat)
    requires j <= k
    ensures Most(c, j) <= Most(c, k)
  {
    MostIs(c, j);
    MostIs(c, k);
    TimesSum(c.tries, MostRequests(c, j), MostRequests(c, k) - MostRequests(c, j));
  }

  lemma SomeFuel(c: Config, f: Fault, xs: seq<Exchange>)
    requires Run(c, f, xs).Waiting?
    ensures Fuel(c, Run(c, f, xs)) >= 1
  {
    RunConsistent(c, f, xs);
  }

  lemma MostGrows(c: Config, k: nat)
    requires k > 0 ==> MayBacktrack(c)
    ensures Times(c.tries, MostRequests(c, 0)) + Times(2 * c.tries, k) == Most(c, k)
  {
    MostIs(c, k);
    TimesTwice(c.tries, k);
    TimesSum(c.tries, MostRequests(c, 0), 2 * k);
    if k > 0 {
      assert MostRequests(c, k) == MostRequests(c, 0) + 2 * k;
    }
  }

  // ----- the bounds are reached -----

  function Lost(n: nat): (xs: seq<Exchange>)
    ensures |xs| == n
  {
    seq(n, _ => Exchange(Timeout, NoFault))
  }

  lemma {:induction false} MarksConcat(c: Config, p: Phase, xs: seq<Exchange>, ys: seq<Exchange>)
    ensures Marks(c, p, xs + ys) == Marks(c, p, xs) + Marks(c, After(c, p, xs), ys)
  {
    if ys == [] {
      assert xs + ys == xs;
    } else {
      var k := |ys| - 1;
      assert (xs + ys)[..|xs + ys| - 1] == xs + ys[..k];
      MarksConcat(c, p, xs, ys[..k]);
      AfterConcat(c, p, xs, ys[..k]);
    }
  }

  /** `xs` leads from p to q through n backtracks. */
  ghost predicate Leads(c: Config, p: Phase, xs: seq<Exchange>, q: Phase, n: nat) {
    After(c, p, xs) == q && Backtracks(c, p, xs) == n
  }

  lemma LeadsConcat(c: Config, p: Phase, xs: seq<Exchange>, q: Phase, m: nat, ys: seq<Exchange>, r: Phase, n: nat)
    requires Leads(c, p, xs, q, m) && Leads(c, q, ys, r, n)
    ensures Leads(c, p, xs + ys, r, m + n)
  {
    AfterConcat(c, p, xs, ys);
    MarksConcat(c, p, xs, ys);
    TallyConcat(Marks(c, p, xs), Marks(c, q, ys));
  }

  /** One more exchange at the end. */
  lemma LeadsOn(c: Config, p: Phase, xs: seq<Exchange>, q: Phase, m: nat, x: Exchange)
    requires Leads(c, p, xs, q, m)
    ensures Leads(c, p, xs + [x], Next(c, q, x.reply, x.fault), m + if IsBacktrack(q, x.reply) then 1 else 0)
  {
    assert (xs + [x])[..|xs + [x]| - 1] == xs;
    BacktracksOn(c, p, xs, x);
  }

  lemma {:induction false} LostTries(c: Config, p: Phase, n: nat)
    requires p.Waiting? && p.tries + n <= c.tries
    ensures Leads(c, p, Lost(n), p.(tries := p.tries + n), 0)
  {
    if n > 0 {
      LostTries(c, p, n - 1);
      assert Lost(n) == Lost(n - 1) + [Exchange(Timeout, NoFault)];
      LeadsOn(c, p, Lost(n - 1), p.(tries := p.tries + n - 1), 0, Exchange(Timeout, NoFault));
    }
  }

  /** Losses up to the last try, and then the given exchange. */
  lemma AllTries(c: Config, p: Phase, x: Exchange) returns (xs: seq<Exchange>)
    requires p.Waiting? && p.tries == 1
    ensures |xs| == c.tries
    ensures var q := p.(tries := c.tries);
      Leads(c, p, xs, Next(c, q, x.reply, x.fault), if IsBacktrack(q, x.reply) then 1 else 0)
  {
    LostTries(c, p, c.tries - 1);
    xs := Lost(c.tries - 1) + [x];
    LeadsOn(c, p, Lost(c.tries - 1), p.(tries := c.tries), 0, x);
  }

  /** A phase at the first try of a request, at a server of its domain. */
  ghost predicate AtFirstTry(c: Config, p: Phase, l: Leg, fwdDone: bool) {
    && DomainOf(c, l).Some?
    && p.Waiting? && p.leg == l && p.tries == 1 && p.fwdDone == fwdDone
  }

  /** The last try of a request at the last server there is for it. */
  ghost predicate AtLastTry(c: Config, p: Phase, l: Leg, fwdDone: bool) {
    p.Waiting? && p.leg == l && p.tries == c.tries && p.fwdDone == fwdDone && Behind(c, p) == 0
  }

  /** Losing the last try goes on to the next server, back to adding if the name was being replaced. */
  lemma FailOver(c: Config, p: Phase) returns (r: Phase)
    requires p.Waiting? && p.tries == c.tries && p.leg != RemoveRRs && DomainOf(c, p.leg).Some? && Behind(c, p) > 0
    ensures r == Next(c, p, Timeout, NoFault)
    ensures AtFirstTry(c, r, Restart(p.leg), p.fwdDone) && Behind(c, r) + 1 == Behind(c, p)
  {
    r := Choose(c, Restart(p.leg), p.server + 1, p.fwdDone, NoFault);
    ChooseCounts(c, Restart(p.leg), p.server + 1, p.fwdDone, NoFault);
  }

  /** All tries at one server lost, and on to the next. */
  lemma LoseServer(c: Config, p: Phase, l: Leg, fwdDone: bool) returns (xs: seq<Exchange>, r: Phase)
    requires l in {RemoveAddr, ReplaceRev, RemoveRev} && AtFirstTry(c, p, l, fwdDone) && Behind(c, p) > 0
    ensures |xs| == c.tries && Leads(c, p, xs, r, 0)
    ensures AtFirstTry(c, r, l, fwdDone) && Behind(c, r) + 1 == Behind(c, p)
  {
    xs := AllTries(c, p, Exchange(Timeout, NoFault));
    r := FailOver(c, p.(tries := c.tries));
  }

  lemma LastServer(c: Config, p: Phase, l: Leg, fwdDone: bool) returns (xs: seq<Exchange>, q: Phase)
    requires AtFirstTry(c, p, l, fwdDone) && Behind(c, p) == 0
    ensures |xs| == c.tries - 1 && Leads(c, p, xs, q, 0) && AtLastTry(c, q, l, fwdDone)
  {
    xs, q := Lost(c.tries - 1), p.(tries := c.tries);
    LostTries(c, p, c.tries - 1);
    assert Behind(c, q) == Behind(c, p);
  }

  /** Failing over from server to server without ever getting an answer. */
  lemma {:induction false} LoseThrough(c: Config, p: Phase, l: Leg, fwdDone: bool) returns (xs: seq<Exchange>, q: Phase)
    requires l in {RemoveAddr, ReplaceRev, RemoveRev} && AtFirstTry(c, p, l, fwdDone)
    ensures |xs| == Times(c.tries, Behind(c, p) + 1) - 1
    ensures Leads(c, p, xs, q, 0) && AtLastTry(c, q, l, fwdDone)
    decreases Behind(c, p)
  {
    if Behind(c, p) == 0 {
      xs, q := LastServer(c, p, l, fwdDone);
    } else {
      var ys, r := LoseServer(c, p, l, fwdDone);
      var zs;
      zs, q := LoseThrough(c, r, l, fwdDone);
      xs := ys + zs;
      LeadsConcat(c, p, ys, r, 0, zs, q, 0);
    }
  }

  /** From the first try of adding: use up the tries, find the name in use, and begin to replace. */
  lemma AddInUse(c: Config, p: Phase) returns (xs: seq<Exchange>, q: Phase)
    requires AtFirstTry(c, p, AddFwd, false)
    ensures |xs| == c.tries && q == p.(leg := ReplaceFwd) && Leads(c, p, xs, q, 0)
    ensures AtFirstTry(c, q, ReplaceFwd, false) && Behind(c, q) == Behind(c, p)
  {
    xs := AllTries(c, p, Exchange(Answer(YXDOMAIN), NoFault));
    q := p.(leg := ReplaceFwd);
  }

  /** The same, and then all tries of replacing, the last of them with the given exchange. */
  lemma AddThenReplace(c: Config, p: Phase, x: Exchange) returns (xs: seq<Exchange>)
    requires AtFirstTry(c, p, AddFwd, false)
    ensures |xs| == 2 * c.tries
    ensures Leads(c, p, xs, Next(c, Waiting(ReplaceFwd, p.server, c.tries, false), x.reply, x.fault),
                  if x.reply == Answer(NXDOMAIN) then 1 else 0)
  {
    var ys, q := AddInUse(c, p);
    var zs := AllTries(c, q, x);
    xs := ys + zs;
    LeadsConcat(c, p, ys, q, 0, zs, Next(c, q.(tries := c.tries), x.reply, x.fault),
                if x.reply == Answer(NXDOMAIN) then 1 else 0);
  }

  /** A round of adding and replacing that ends in a backtrack. */
  lemma AddBacktracks(c: Config, p: Phase) returns (xs: seq<Exchange>)
    requires AtFirstTry(c, p, AddFwd, false)
    ensures |xs| == 2 * c.tries && Leads(c, p, xs, p, 1)
  {
    xs := AddThenReplace(c, p, Exchange(Answer(NXDOMAIN), NoFault));
  }

  /** A round of adding and replacing that ends at the next server. */
  lemma AddLoses(c: Config, p: Phase) returns (xs: seq<Exchange>, r: Phase)
    requires AtFirstTry(c, p, AddFwd, false) && Behind(c, p) > 0
    ensures |xs| == 2 * c.tries && Leads(c, p, xs, r, 0)
    ensures AtFirstTry(c, r, AddFwd, false) && Behind(c, r) + 1 == Behind(c, p)
  {
    var q := Waiting(ReplaceFwd, p.server, c.tries, false);
    assert Behind(c, q) == Behind(c, p);
    xs := AddThenReplace(c, p, Exchange(Timeout, NoFault));
    r := FailOver(c, q);
  }

  lemma AddRound(c: Config, p: Phase, b: nat) returns (xs: seq<Exchange>, r: Phase)
    requires AtFirstTry(c, p, AddFwd, false) && (b == 1 || (b == 0 && Behind(c, p) > 0))
    ensures |xs| == 2 * c.tries && Leads(c, p, xs, r, b)
    ensures AtFirstTry(c, r, AddFwd, false) && Behind(c, r) == Behind(c, p) + b - 1
  {
    if b == 1 {
      xs := AddBacktracks(c, p);
      r := p;
    } else {
      xs, r := AddLoses(c, p);
    }
  }

  /** A run to the last try of replacing, with n + 1 rounds of two requests, the last one outstanding. */
  ghost predicate Exhausts(c: Config, p: Phase, xs: seq<Exchange>, q: Phase, k: nat, n: nat) {
    && |xs| + 1 == Times(2 * c.tries, n + 1)
    && Leads(c, p, xs, q, k) && AtLastTry(c, q, ReplaceFwd, false)
  }

  /** Two requests with all their tries, and what follows. */
  lemma TwoMore(c: Config, p: Phase, ys: seq<Exchange>, r: Phase, b: nat, zs: seq<Exchange>, q: Phase, k: nat, n: nat)
    requires b <= k && 0 < n
    requires Leads(c, p, ys, r, b) && |ys| == 2 * c.tries && Exhausts(c, r, zs, q, k - b, n - 1)
    ensures Exhausts(c, p, ys + zs, q, k, n)
  {
    LeadsConcat(c, p, ys, r, b, zs, q, k - b);
    assert Times(2 * c.tries, n + 1) == 2 * c.tries + Times(2 * c.tries, n);
  }

  /** The last server: all tries of adding and replacing, the last one outstanding. */
  lemma LastForward(c: Config, p: Phase) returns (xs: seq<Exchange>, q: Phase)
    requires AtFirstTry(c, p, AddFwd, false) && Behind(c, p) == 0
    ensures Exhausts(c, p, xs, q, 0, 0)
  {
    var ys, r := AddInUse(c, p);
    LostTries(c, r, c.tries - 1);
    q := r.(tries := c.tries);
    assert Behind(c, q) == Behind(c, r);
    xs := ys + Lost(c.tries - 1);
    LeadsConcat(c, p, ys, r, 0, Lost(c.tries - 1), q, 0);
    assert Times(2 * c.tries, 1) == 2 * c.tries + Times(2 * c.tries, 0);
  }

  ghost predicate CanExhaust(c: Config, p: Phase, k: nat, n: nat) {
    exists xs, q :: Exhausts(c, p, xs, q, k, n)
  }

  lemma RoundThenExhaust(c: Config, p: Phase, b: nat, k: nat, n: nat) returns (r: Phase)
    requires AtFirstTry(c, p, AddFwd, false) && (b == 1 || (b == 0 && Behind(c, p) > 0)) && b <= k && 0 < n
    ensures AtFirstTry(c, r, AddFwd, false) && Behind(c, r) == Behind(c, p) + b - 1
    ensures CanExhaust(c, r, k - b, n - 1) ==> CanExhaust(c, p, k, n)
  {
    var ys;
    ys, r := AddRound(c, p, b);
    if CanExhaust(c, r, k - b, n - 1) {
      var zs, q :| Exhausts(c, r, zs, q, k - b, n - 1);
      TwoMore(c, p, ys, r, b, zs, q, k, n);
    }
  }

  lemma LastExhausts(c: Config, p: Phase)
    requires AtFirstTry(c, p, AddFwd, false) && Behind(c, p) == 0
    ensures CanExhaust(c, p, 0, 0)
  {
    var xs, q := LastForward(c, p);
  }

  /** All forward servers, with k backtracks on the way, to the last try of replacing. */
  lemma {:induction false} ExhaustForward(c: Config, p: Phase, k: nat, n: nat)
    requires AtFirstTry(c, p, AddFwd, false) && n == Behind(c, p) + k
    ensures CanExhaust(c, p, k, n)
    decreases n
  {
    if n == 0 {
      LastExhausts(c, p);
    } else {
      var b := if k > 0 then 1 else 0;
      var r := RoundThenExhaust(c, p, b, k, n);
      ExhaustForward(c, r, k - b, n - 1);
    }
  }

  /** An accepted forward change goes on to the reverse part, if it has any server. */
  lemma ReverseStarts(c: Config, q: Phase) returns (r: Phase)
    requires q.Waiting? && q.leg in {ReplaceFwd, RemoveRRs} && Count(c.reverse) > 0
    ensures r == Next(c, q, Answer(NOERROR), NoFault)
    ensures AtFirstTry(c, r, FirstReverse(c), true) && Behind(c, r) + 1 == Count(c.reverse)
  {
    r := Choose(c, FirstReverse(c), 0, true, NoFault);
    ChooseCounts(c, FirstReverse(c), 0, true, NoFault);
  }

  lemma ThenReverse(c: Config, p: Phase, xs: seq<Exchange>, q: Phase, k: nat) returns (ys: seq<Exchange>)
    requires Leads(c, p, xs, q, k) && q.Waiting? && q.leg in {ReplaceFwd, RemoveRRs}
    ensures After(c, p, ys).Waiting? && Backtracks(c, p, ys) == k
    ensures |ys| == |xs| + Times(c.tries, Count(c.reverse))
  {
    if Count(c.reverse) == 0 {
      ys := xs;
    } else {
      var x := Exchange(Answer(NOERROR), NoFault);
      var r := ReverseStarts(c, q);
      LeadsOn(c, p, xs, q, k, x);
      var zs, t := LoseThrough(c, r, FirstReverse(c), true);
      ys := xs + [x] + zs;
      LeadsConcat(c, p, xs + [x], r, k, zs, t, 0);
    }
  }

  /** The first phase, if there is a server. */
  lemma Started(c: Config, l: Leg) returns (p: Phase)
    requires DomainOf(c, l).Some? && Count(DomainOf(c, l)) > 0
    requires l == if c.forward.Some? then FirstForward(c) else FirstReverse(c)
    ensures p == First(c, NoFault) && AtFirstTry(c, p, l, false) && Behind(c, p) + 1 == Count(DomainOf(c, l))
  {
    p := First(c, NoFault);
    ChooseCounts(c, l, 0, false, NoFault);
  }

  lemma AddRequests(c: Config, k: nat, n: nat)
    requires c.change == CHG_ADD && Count(c.forward) > 0 && n + 1 == Count(c.forward) + k
    ensures Times(2 * c.tries, n + 1) + Times(c.tries, Count(c.reverse)) == Times(c.tries, MostRequests(c, k))
  {
    TimesTwice(c.tries, n + 1);
    TimesSum(c.tries, 2 * (n + 1), Count(c.reverse));
  }

  lemma LongestAdd(c: Config, k: nat) returns (xs: seq<Exchange>)
    requires c.change == CHG_ADD && Count(c.forward) > 0
    ensures Run(c, NoFault, xs).Waiting? && Backtracks(c, First(c, NoFault), xs) == k
    ensures |xs| + 1 == Times(c.tries, MostRequests(c, k))
  {
    var p := Started(c, AddFwd);
    var n := Count(c.forward) - 1 + k;
    ExhaustForward(c, p, k, n);
    xs := ExhaustThenReverse(c, p, k, n);
    AddRequests(c, k, n);
  }

  lemma ExhaustThenReverse(c: Config, p: Phase, k: nat, n: nat) returns (ys: seq<Exchange>)
    requires CanExhaust(c, p, k, n)
    ensures After(c, p, ys).Waiting? && Backtracks(c, p, ys) == k
    ensures |ys| + 1 == Times(2 * c.tries, n + 1) + Times(c.tries, Count(c.reverse))
  {
    var xs, q :| Exhausts(c, p, xs, q, k, n);
    ys := ThenReverse(c, p, xs, q, k);
  }

  lemma LongestRemove(c: Config) returns (xs: seq<Exchange>)
    requires c.change == CHG_REMOVE && Count(c.forward) > 0
    ensures Run(c, NoFault, xs).Waiting? && Backtracks(c, First(c, NoFault), xs) == 0
    ensures |xs| + 1 == Times(c.tries, MostRequests(c, 0))
  {
    var p := Started(c, RemoveAddr);
    var ys, q := RemoveForward(c, p);
    xs := ThenReverse(c, p, ys, q, 0);
    TimesSum(c.tries, Count(c.forward) + 1, Count(c.reverse));
  }

  /** All tries of both forward removals, the last one outstanding. */
  lemma RemoveForward(c: Config, p: Phase) returns (xs: seq<Exchange>, t: Phase)
    requires AtFirstTry(c, p, RemoveAddr, false)
    ensures |xs| == Times(c.tries, Behind(c, p) + 2) - 1
    ensures Leads(c, p, xs, t, 0) && t.Waiting? && t.leg == RemoveRRs
  {
    var x := Exchange(Answer(NOERROR), NoFault);
    var ys, q := LoseThrough(c, p, RemoveAddr, false);
    LeadsOn(c, p, ys, q, 0, x);
    var r := Waiting(RemoveRRs, q.server, 1, false);
    LostTries(c, r, c.tries - 1);
    t := r.(tries := c.tries);
    LeadsConcat(c, p, ys + [x], r, 0, Lost(c.tries - 1), t, 0);
    xs := ys + [x] + Lost(c.tries - 1);
  }

  lemma LongestReverse(c: Config) returns (xs: seq<Exchange>)
    requires c.forward.None? && Count(c.reverse) > 0
    ensures Run(c, NoFault, xs).Waiting? && Backtracks(c, First(c, NoFault), xs) == 0
    ensures |xs| + 1 == Times(c.tries, MostRequests(c, 0))
  {
    var p := Started(c, FirstReverse(c));
    var q;
    xs, q := LoseThrough(c, p, FirstReverse(c), false);
  }

  /** The bound is exact, for every request, whatever domains and servers it has, and every number of
      backtracks: some run sends that many updates, unless there is no server to send any to. */
  lemma BoundIsReached(c: Config, k: nat)
    requires (k > 0 ==> MayBacktrack(c)) && Most(c, k) > 0
    ensures exists xs ::
      Run(c, NoFault, xs).Waiting? && Backtracks(c, First(c, NoFault), xs) == k && |xs| + 1 == Most(c, k)
  {
    MostIs(c, k);
    if c.forward.None? {
      var xs := LongestReverse(c);
    } else if c.change == CHG_ADD {
      var xs := LongestAdd(c, k);
    } else {
      var xs := LongestRemove(c);
    }
  }

  /** Without such a server nothing is ever sent. */
  lemma {:induction false} NothingToSend(c: Config, f: Fault, xs: seq<Exchange>)
    requires Most(c, 0) == 0
    ensures Run(c, f, xs).Ended?
  {
    if Run(c, f, xs).Waiting? {
      MostIs(c, 0);
      SendsAreBounded(c, f, xs);
      BacktracksOnlyInAdd(c, f, xs);
    }
  }

  // ----- the server of the second removal step -----

  /** While the DHCID removal is outstanding, the run consists of an accepted address removal at that
      same server followed only by lost tries. */
  lemma {:induction false} RemovalSticksToServer(c: Config, f: Fault, xs: seq<Exchange>)
    requires Run(c, f, xs).Waiting? && Run(c, f, xs).leg == RemoveRRs
    ensures var p := Run(c, f, xs); var m := |xs| - p.tries;
      && 0 <= m
      && Run(c, f, xs[..m]).Waiting? && Run(c, f, xs[..m]).leg == RemoveAddr && Run(c, f, xs[..m]).server == p.server
      && xs[m].reply in {Answer(NOERROR), Answer(NXRRSET)}
      && (forall i :: m < i < |xs| ==> IsLoss(xs[i].reply))
  {
    RunConsistent(c, f, xs);
    assert xs != [];
    var k := |xs| - 1;
    var q := Run(c, f, xs[..k]);
    RunConsistent(c, f, xs[..k]);
    if q.leg == RemoveRRs {
      RemovalSticksToServer(c, f, xs[..k]);
      var m := k - q.tries;
      assert xs[..k][..m] == xs[..m];
    }
  }

  /** Losing its last try there ends the transaction, however many servers are left. */
  lemma RemovalNeverFailsOver(c: Config, f: Fault, xs: seq<Exchange>, x: Exchange)
    requires Run(c, f, xs).Waiting? && Run(c, f, xs).leg == RemoveRRs && IsLoss(x.reply)
    ensures var q := Run(c, f, xs + [x]);
      if Run(c, f, xs).tries == c.tries
      then q == Ended(ST_FAILED, false, false, false)
      else q == Launch(RemoveRRs, Run(c, f, xs).server, Run(c, f, xs).tries + 1, false, x.fault)
  {
    RunConsistent(c, f, xs);
    assert (xs + [x])[..|xs|] == xs;
  }
}
