/**
Who a name belongs to: an address that stands at a name together with the DHCID
of the request that put it there, which requests tear the two apart, and for
which sets of transactions that can never happen.
*/
module Ownership {
  import opened Common
  import opened Dns
  import opened Requests
  import opened Protocol
  import opened ZoneFacts
  import opened Network
  import opened Convergence
  import opened Progress

  /** An add that puts an address of the type at the name. */
  predicate Writes(c: Config, n: Name, t: RRType) {
    c.change == CHG_ADD && c.forward.Some? && c.ncr.fqdn == n && AddressType(c.ncr.ip) == t
  }

  /** If there is an address of the type at the name, then there is just one, there is just one DHCID, and
      both are those of one of the adds.  Whatever else stands at the name does not matter. */
  ghost predicate Paired(s: Sys, z: Zone, n: Name, t: RRType) {
    Has(z, n, t) ==> exists j :: 0 <= j < |s.procs| && OwnedBy(z, n, t, s.procs[j].cfg)
  }

  ghost predicate OwnedBy(z: Zone, n: Name, t: RRType, c: Config) {
    Writes(c, n, t) && Owned(z, c.ncr)
  }

  // ----- one request -----

  /** The request replaces the DHCID at the name and leaves addresses of the type alone: the name is its
      reverse name, or its address is of the other family. */
  predicate Restamps(c: Config, l: Leg, n: Name, t: RRType) {
    || (l == ReplaceRev && RevName(c.ncr) == n)
    || (l == ReplaceFwd && c.ncr.fqdn == n && AddressType(c.ncr.ip) != t)
  }

  /** One of the adds has the DHCID, and its address is there. */
  ghost predicate Vouched(s: Sys, id: Dhcid, z: Zone, n: Name, t: RRType) {
    exists k :: 0 <= k < |s.procs| && Vouches(s.procs[k].cfg, id, z, n, t)
  }

  predicate Vouches(c: Config, id: Dhcid, z: Zone, n: Name, t: RRType) {
    Writes(c, n, t) && c.ncr.dhcid == id && AddrRR(c.ncr) in z
  }

  ghost predicate Tears(s: Sys, c: Config, l: Leg, z: Zone, n: Name, t: RRType) {
    Restamps(c, l, n, t) && Has(z, n, t) && !Vouched(s, c.ncr.dhcid, z, n, t)
  }

  lemma OwnedIs(z: Zone, c: Ncr, r: RR)
    requires Owned(z, c) && r in z && r.name == c.fqdn
    ensures r.rtype == AddressType(c.ip) ==> r == AddrRR(c)
    ensures r.rtype == DHCID ==> r == OwnerRR(c)
  {
    assert r.rtype == AddressType(c.ip) ==> r.rdata in RRset(z, c.fqdn, AddressType(c.ip));
    assert r.rtype == DHCID ==> r.rdata in RRset(z, c.fqdn, DHCID);
  }

  lemma OwnedHas(z: Zone, c: Ncr)
    requires Owned(z, c)
    ensures AddrRR(c) in z && OwnerRR(c) in z
  {
    assert Address(c.ip) in RRset(z, c.fqdn, AddressType(c.ip));
    assert Owner(c.dhcid) in RRset(z, c.fqdn, DHCID);
  }

  /** A forward add that goes through makes the client the owner. */
  lemma WriterOwns(c: Config, l: Leg, z: Zone)
    requires l == AddFwd || l == ReplaceFwd
    ensures if Code(c, l, z) == NOERROR then Owned(Do(c, l, z), c.ncr) else Do(c, l, z) == z
  {
    var y := Do(c, l, z);
    if Code(c, l, z) == NOERROR {
      assert AddrRR(c.ncr) in y && OwnerRR(c.ncr) in y;
      assert forall r :: r in y && r.name == c.ncr.fqdn && r.rtype == AddressType(c.ncr.ip) ==> r == AddrRR(c.ncr);
      assert forall r :: r in y && r.name == c.ncr.fqdn && r.rtype == DHCID ==> r == OwnerRR(c.ncr);
    }
  }

  /** What restamping leaves: the addresses there were, and the DHCID of the request. */
  lemma RestampLeaves(c: Config, l: Leg, z: Zone, n: Name, t: RRType)
    requires Restamps(c, l, n, t) && Legal(z) && (t == A || t == AAAA) && Has(z, n, t) && Has(z, n, DHCID)
    ensures var y := Do(c, l, z);
      && RRset(y, n, t) == RRset(z, n, t) && RRset(y, n, DHCID) == {Owner(c.ncr.dhcid)}
  {
    var y := Do(c, l, z);
    assert !Has(z, n, CNAME);
    assert forall r: RR :: r.name == n && r.rtype == t ==> (r in y <==> r in z);
    var stamp := RR(n, DHCID, Owner(c.ncr.dhcid));
    assert stamp in y && forall r :: r in y && r.name == n && r.rtype == DHCID ==> r == stamp;
  }

  lemma RestampPairs(s: Sys, c: Config, l: Leg, z: Zone, n: Name, t: RRType)
    requires Restamps(c, l, n, t) && Legal(z) && (t == A || t == AAAA) && Has(z, n, t) && Paired(s, z, n, t)
    ensures Paired(s, Do(c, l, z), n, t) <==> Vouched(s, c.ncr.dhcid, z, n, t)
  {
    var j :| 0 <= j < |s.procs| && OwnedBy(z, n, t, s.procs[j].cfg);
    OwnedHas(z, s.procs[j].cfg.ncr);
    RestampLeaves(c, l, z, n, t);
    StampPairs(s, s.procs[j].cfg, c.ncr.dhcid, Do(c, l, z), z, n, t);
  }

  lemma StampPairs(s: Sys, d: Config, id: Dhcid, y: Zone, z: Zone, n: Name, t: RRType)
    requires OwnedBy(z, n, t, d) && RRset(y, n, t) == RRset(z, n, t) && RRset(y, n, DHCID) == {Owner(id)}
    ensures Paired(s, y, n, t) <==> Vouched(s, id, z, n, t)
  {
    OwnedHas(z, d.ncr);
    RRsetHas(y, z, n, t);
    if Vouched(s, id, z, n, t) {
      var k :| 0 <= k < |s.procs| && Vouches(s.procs[k].cfg, id, z, n, t);
      OwnedIs(z, d.ncr, AddrRR(s.procs[k].cfg.ncr));
      assert OwnedBy(y, n, t, s.procs[k].cfg);
    }
    if Paired(s, y, n, t) {
      var k :| 0 <= k < |s.procs| && OwnedBy(y, n, t, s.procs[k].cfg);
      assert AddrRR(s.procs[k].cfg.ncr) == AddrRR(d.ncr);
      assert Vouches(s.procs[k].cfg, id, z, n, t);
    }
  }

  lemma RRsetHas(y: Zone, z: Zone, n: Name, t: RRType)
    requires RRset(y, n, t) == RRset(z, n, t)
    ensures Has(y, n, t) == Has(z, n, t)
  {
    if Has(y, n, t) {
      var r :| r in y && r.name == n && r.rtype == t;
      assert r.rdata in RRset(z, n, t);
    }
    if Has(z, n, t) {
      var r :| r in z && r.name == n && r.rtype == t;
      assert r.rdata in RRset(y, n, t);
    }
  }

  /** The address and the DHCID at the name are as they were, or there is no address. */
  ghost predicate Spared(y: Zone, z: Zone, n: Name, t: RRType) {
    !Has(y, n, t) || (RRset(y, n, t) == RRset(z, n, t) && RRset(y, n, DHCID) == RRset(z, n, DHCID))
  }

  lemma SparedPairs(s: Sys, y: Zone, z: Zone, n: Name, t: RRType)
    requires Spared(y, z, n, t) && Paired(s, z, n, t)
    ensures Paired(s, y, n, t)
  {
    if Has(y, n, t) {
      RRsetHas(y, z, n, t);
      var j :| 0 <= j < |s.procs| && OwnedBy(z, n, t, s.procs[j].cfg);
      assert OwnedBy(y, n, t, s.procs[j].cfg);
    }
  }

  lemma AtSpares(y: Zone, z: Zone, n: Name, t: RRType)
    requires At(y, n) == At(z, n)
    ensures Spared(y, z, n, t)
  {
    forall r: RR | r.name == n ensures r in y <==> r in z {
      assert r in y <==> r in At(y, n);
      assert r in z <==> r in At(z, n);
    }
  }

  lemma AddressRemovalSpares(s: Sys, c: Config, z: Zone, n: Name, t: RRType)
    requires c.ncr.fqdn == n && Paired(s, z, n, t)
    ensures Spared(Do(c, RemoveAddr, z), z, n, t)
  {
    var y := Do(c, RemoveAddr, z);
    if Has(y, n, t) {
      var r :| r in y && r.name == n && r.rtype == t;
      var j :| 0 <= j < |s.procs| && OwnedBy(z, n, t, s.procs[j].cfg);
      OwnedIs(z, s.procs[j].cfg.ncr, r);
      assert AddressType(c.ncr.ip) == t && AddrRR(c.ncr) in z ==> AddrRR(c.ncr) == r by {
        if AddressType(c.ncr.ip) == t && AddrRR(c.ncr) in z { OwnedIs(z, s.procs[j].cfg.ncr, AddrRR(c.ncr)); }
      }
      assert forall q: RR :: q.name == n && (q.rtype == t || q.rtype == DHCID) ==> (q in y <==> q in z);
    }
  }

  lemma RestSpares(s: Sys, c: Config, l: Leg, z: Zone, n: Name, t: RRType)
    requires (t == A || t == AAAA) && Paired(s, z, n, t) && l in {RemoveAddr, RemoveRRs, RemoveRev, ReplaceRev}
    requires !Restamps(c, l, n, t)
    ensures Spared(Do(c, l, z), z, n, t)
  {
    if n != if IsReverse(l) then RevName(c.ncr) else c.ncr.fqdn {
      EffectElsewhere(ZoneName(c, l), c.ncr, l, z, n);
      AtSpares(Do(c, l, z), z, n, t);
    } else if l == RemoveAddr {
      AddressRemovalSpares(s, c, z, n, t);
    }
  }

  /** A request keeps an address together with the DHCID of its client, if and only if it does not put
      another DHCID over it that no add with that address has. */
  lemma DeliverPaired(s: Sys, i: nat, l: Leg, z: Zone, n: Name, t: RRType)
    requires i < |s.procs| && LegFits(s.procs[i].cfg, l) && DomainOf(s.procs[i].cfg, l).Some?
    requires (t == A || t == AAAA) && Legal(z) && Paired(s, z, n, t)
    ensures Paired(s, Do(s.procs[i].cfg, l, z), n, t) <==> !Tears(s, s.procs[i].cfg, l, z, n, t)
  {
    var c := s.procs[i].cfg;
    if Restamps(c, l, n, t) {
      if Has(z, n, t) {
        RestampPairs(s, c, l, z, n, t);
      }
    } else if l == AddFwd || l == ReplaceFwd {
      ForwardPairs(s, i, l, z, n, t);
    } else {
      RestSpares(s, c, l, z, n, t);
      SparedPairs(s, Do(c, l, z), z, n, t);
    }
  }

  lemma ForwardPairs(s: Sys, i: nat, l: Leg, z: Zone, n: Name, t: RRType)
    requires i < |s.procs| && (l == AddFwd || l == ReplaceFwd) && (t == A || t == AAAA)
    requires LegFits(s.procs[i].cfg, l) && s.procs[i].cfg.forward.Some?
    requires Paired(s, z, n, t) && !Restamps(s.procs[i].cfg, l, n, t)
    ensures Paired(s, Do(s.procs[i].cfg, l, z), n, t)
  {
    var c := s.procs[i].cfg;
    var y := Do(c, l, z);
    WriterOwns(c, l, z);
    if c.ncr.fqdn != n {
      EffectElsewhere(ZoneName(c, l), c.ncr, l, z, n);
      AtSpares(y, z, n, t);
      SparedPairs(s, y, z, n, t);
    } else if AddressType(c.ncr.ip) == t {
      assert Code(c, l, z) == NOERROR ==> OwnedBy(y, n, t, c);
    } else if Has(y, n, t) {
      var r :| r in y && r.name == n && r.rtype == t;
      assert r in z;
    }
  }

  // ----- every run -----

  /** An add that can replace the DHCID at the name without being the one whose address is there. */
  predicate CanRestamp(c: Config, n: Name, t: RRType) {
    && c.change == CHG_ADD
    && ((c.reverse.Some? && RevName(c.ncr) == n) || (c.forward.Some? && c.ncr.fqdn == n && AddressType(c.ncr.ip) != t))
  }

  /** For any two adds, one that can restamp the name and one that writes it, there is one that has the
      DHCID of the first and the address of the second; most simply, the two are of one client. */
  ghost predicate Harmonious(s: Sys, n: Name, t: RRType) {
    forall i, j :: 0 <= i < |s.procs| && 0 <= j < |s.procs| ==> InHarmony(s, s.procs[i].cfg, s.procs[j].cfg, n, t)
  }

  ghost predicate InHarmony(s: Sys, c: Config, d: Config, n: Name, t: RRType) {
    CanRestamp(c, n, t) && Writes(d, n, t) ==> Mediated(s, c, d, n, t)
  }

  ghost predicate Mediated(s: Sys, c: Config, d: Config, n: Name, t: RRType) {
    exists k :: 0 <= k < |s.procs| && Mediates(s.procs[k].cfg, c, d, n, t)
  }

  predicate Mediates(m: Config, c: Config, d: Config, n: Name, t: RRType) {
    Writes(m, n, t) && m.ncr.dhcid == c.ncr.dhcid && m.ncr.ip == d.ncr.ip
  }

  lemma MediatorVouches(s: Sys, c: Config, d: Config, z: Zone, n: Name, t: RRType)
    requires OwnedBy(z, n, t, d)
    ensures Vouched(s, c.ncr.dhcid, z, n, t) <==> Mediated(s, c, d, n, t)
  {
    OwnedHas(z, d.ncr);
    if Mediated(s, c, d, n, t) {
      var k :| 0 <= k < |s.procs| && Mediates(s.procs[k].cfg, c, d, n, t);
      assert Vouches(s.procs[k].cfg, c.ncr.dhcid, z, n, t);
    }
    if Vouched(s, c.ncr.dhcid, z, n, t) {
      var k :| 0 <= k < |s.procs| && Vouches(s.procs[k].cfg, c.ncr.dhcid, z, n, t);
      OwnedIs(z, d.ncr, AddrRR(s.procs[k].cfg.ncr));
      assert Mediates(s.procs[k].cfg, c, d, n, t);
    }
  }

  lemma RestampsCan(c: Config, l: Leg, n: Name, t: RRType)
    requires LegFits(c, l) && DomainOf(c, l).Some? && Restamps(c, l, n, t)
    ensures CanRestamp(c, n, t)
  {
  }

  lemma HarmonyNeverTears(s: Sys, i: nat, l: Leg, z: Zone, n: Name, t: RRType)
    requires i < |s.procs| && LegFits(s.procs[i].cfg, l) && DomainOf(s.procs[i].cfg, l).Some?
    requires Harmonious(s, n, t) && Paired(s, z, n, t)
    ensures !Tears(s, s.procs[i].cfg, l, z, n, t)
  {
    if Restamps(s.procs[i].cfg, l, n, t) && Has(z, n, t) {
      var j :| 0 <= j < |s.procs| && OwnedBy(z, n, t, s.procs[j].cfg);
      RestampsCan(s.procs[i].cfg, l, n, t);
      assert InHarmony(s, s.procs[i].cfg, s.procs[j].cfg, n, t);
      MediatorVouches(s, s.procs[i].cfg, s.procs[j].cfg, z, n, t);
    }
  }

  /** Among harmonious transactions, whatever interleaves and however late requests arrive, an address at
      the name always stands together with the DHCID of the same client. */
  lemma {:induction false} NoTornOwnership(s: Sys, es: seq<Event>, n: Name, t: RRType)
    requires AllOk(s) && Valid(s, es) && (t == A || t == AAAA)
    requires Paired(s, s.zone, n, t) && Harmonious(s, n, t)
    ensures Paired(s, Trace(s, es).zone, n, t)
  {
    if es != [] {
      var init, e := es[..|es| - 1], es[|es| - 1];
      var m := Trace(s, init);
      NoTornOwnership(s, init, n, t);
      TraceOk(s, init);
      if e.Deliver? {
        assert ProcOk(m.procs[e.i]);
        ServeEffect(s.procs[e.i].cfg, e.leg, m.zone);
        HarmonyNeverTears(s, e.i, e.leg, m.zone, n, t);
        DeliverPaired(s, e.i, e.leg, m.zone, n, t);
      }
    }
  }

  // ----- and no others -----

  ghost predicate AlwaysPaired(s: Sys, n: Name, t: RRType) {
    forall es :: Valid(s, es) ==> Paired(s, Trace(s, es).zone, n, t)
  }

  /** Transactions just started, on names that are not in use and with servers to talk to. */
  ghost predicate Starting(s: Sys, n: Name) {
    && Legal(s.zone) && !InUse(s.zone, n)
    && forall i :: 0 <= i < |s.procs| ==> Beginning(s, s.procs[i])
  }

  ghost predicate Beginning(s: Sys, p: Proc) {
    && p == Start(p.cfg, NoFault) && Reachable(p.cfg.forward) && Reachable(p.cfg.reverse)
    && !InUse(s.zone, p.cfg.ncr.fqdn)
  }

  /** An add that has just started takes the name over. */
  lemma Takes(s: Sys, es: seq<Event>, m: Sys, j: nat) returns (fs: seq<Event>, u: Sys)
    requires Valid(s, es) && Trace(s, es) == m && AllOk(m) && j < |m.procs|
    requires var c := m.procs[j].cfg;
      && m.procs[j] == Start(c, NoFault) && c.change == CHG_ADD && c.forward.Some? && Reachable(c.forward)
      && (InUse(m.zone, c.ncr.fqdn) ==> Has(m.zone, c.ncr.fqdn, DHCID))
    ensures Valid(s, fs) && Trace(s, fs) == u && AllOk(u) && |u.procs| == |m.procs|
    ensures Owned(u.zone, m.procs[j].cfg.ncr)
    ensures forall i :: 0 <= i < |m.procs| && i != j ==> u.procs[i] == m.procs[i]
  {
    var c := m.procs[j].cfg;
    fs, u := es, m;
    var l := AddFwd;
    if InUse(m.zone, c.ncr.fqdn) {
      fs, u := FindsInUse(s, es, m, j);
      l := ReplaceFwd;
    }
    WriterOwns(c, l, u.zone);
    ServeEffect(c, l, u.zone);
    StepOk(u, Deliver(j, l));
    fs, u := Extend(s, fs, u, Deliver(j, l));
  }

  /** A copy of a request that tears the pair apart. */
  lemma TornBy(s: Sys, es: seq<Event>, m: Sys, i: nat, j: nat, l: Leg, n: Name, t: RRType)
    requires Valid(s, es) && Trace(s, es) == m && AllOk(m) && |m.procs| == |s.procs| && (t == A || t == AAAA)
    requires i < |s.procs| && j < |s.procs| && l in m.procs[i].sent && m.procs[i].cfg == s.procs[i].cfg
    requires Restamps(s.procs[i].cfg, l, n, t) && Writes(s.procs[j].cfg, n, t) && Owned(m.zone, s.procs[j].cfg.ncr)
    requires !Mediated(s, s.procs[i].cfg, s.procs[j].cfg, n, t)
    ensures !AlwaysPaired(s, n, t)
  {
    var c, d := s.procs[i].cfg, s.procs[j].cfg;
    OwnedHas(m.zone, d.ncr);
    assert OwnedBy(m.zone, n, t, d) && Has(m.zone, n, t);
    MediatorVouches(s, c, d, m.zone, n, t);
    assert ProcOk(m.procs[i]);
    DeliverPaired(s, i, l, m.zone, n, t);
    ServeEffect(c, l, m.zone);
    var fs, u := Extend(s, es, m, Deliver(i, l));
  }

  lemma SelfMediates(s: Sys, i: nat, n: Name, t: RRType)
    requires i < |s.procs| && Writes(s.procs[i].cfg, n, t)
    ensures Mediated(s, s.procs[i].cfg, s.procs[i].cfg, n, t)
  {
    assert Mediates(s.procs[i].cfg, s.procs[i].cfg, s.procs[i].cfg, n, t);
  }

  /** The add that has the name as its reverse name gets there first, the other one takes the name over,
      and the reverse request puts the wrong DHCID over its address. */
  lemma TornInReverse(s: Sys, i: nat, j: nat, n: Name, t: RRType)
    requires Starting(s, n) && (t == A || t == AAAA) && i < |s.procs| && j < |s.procs|
    requires var c := s.procs[i].cfg; c.change == CHG_ADD && c.reverse.Some? && RevName(c.ncr) == n
    requires Writes(s.procs[j].cfg, n, t) && !Mediated(s, s.procs[i].cfg, s.procs[j].cfg, n, t)
    ensures !AlwaysPaired(s, n, t)
  {
    var c, d := s.procs[i].cfg, s.procs[j].cfg;
    StartingOk(s, n);
    assert Beginning(s, s.procs[i]) && Beginning(s, s.procs[j]);
    if i == j {
      SelfMediates(s, i, n, t);
      assert false;
    }
    var es, m := [], s;
    if c.forward.Some? {
      es, m := Exchanged(s, es, m, i);
    }
    assert ReplaceRev in m.procs[i].sent;
    assert InUse(m.zone, n) ==> Has(m.zone, n, DHCID);
    es, m := Takes(s, es, m, j);
    TornBy(s, es, m, i, j, ReplaceRev, n, t);
  }

  /** An add that finds its name in use goes on to the replace request. */
  lemma FindsInUse(s: Sys, es: seq<Event>, m: Sys, i: nat) returns (fs: seq<Event>, u: Sys)
    requires Valid(s, es) && Trace(s, es) == m && AllOk(m) && i < |m.procs|
    requires var c := m.procs[i].cfg;
      && m.procs[i] == Start(c, NoFault) && c.change == CHG_ADD && c.forward.Some? && Reachable(c.forward)
      && InUse(m.zone, c.ncr.fqdn)
    ensures Valid(s, fs) && Trace(s, fs) == u && AllOk(u) && |u.procs| == |m.procs| && u.zone == m.zone
    ensures ReplaceFwd in u.procs[i].sent && u.procs[i].cfg == m.procs[i].cfg
    ensures forall j :: 0 <= j < |m.procs| && j != i ==> u.procs[j] == m.procs[j]
  {
    fs, u := Exchanged(s, es, m, i);
  }

  /** An add of the other family takes the name over with the replace request. */
  lemma TornForward(s: Sys, i: nat, j: nat, n: Name, t: RRType)
    requires Starting(s, n) && (t == A || t == AAAA) && i < |s.procs| && j < |s.procs|
    requires var c := s.procs[i].cfg;
      c.change == CHG_ADD && c.forward.Some? && c.ncr.fqdn == n && AddressType(c.ncr.ip) != t
    requires Writes(s.procs[j].cfg, n, t) && !Mediated(s, s.procs[i].cfg, s.procs[j].cfg, n, t)
    ensures !AlwaysPaired(s, n, t)
  {
    var c, d := s.procs[i].cfg, s.procs[j].cfg;
    StartingOk(s, n);
    assert Beginning(s, s.procs[i]) && Beginning(s, s.procs[j]);
    var es, m := Takes(s, [], s, j);
    OwnedHas(m.zone, d.ncr);
    var fs, u := FindsInUse(s, es, m, i);
    TornBy(s, fs, u, i, j, ReplaceFwd, n, t);
  }

  lemma StartingOk(s: Sys, n: Name)
    requires Starting(s, n)
    ensures AllOk(s)
  {
    forall i | 0 <= i < |s.procs| ensures ProcOk(s.procs[i]) {
      assert Beginning(s, s.procs[i]);
      RunConsistent(s.procs[i].cfg, NoFault, []);
    }
  }

  /** From a start on unused names: in every run, at every point, an address at the name stands
      together with the DHCID of the same client, if and only if the transactions are harmonious. */
  lemma NoTornOwnershipIff(s: Sys, n: Name, t: RRType)
    requires Starting(s, n) && (t == A || t == AAAA)
    ensures AlwaysPaired(s, n, t) <==> Harmonious(s, n, t)
  {
    if Harmonious(s, n, t) {
      StartingOk(s, n);
      forall es | Valid(s, es) ensures Paired(s, Trace(s, es).zone, n, t) {
        NoTornOwnership(s, es, n, t);
      }
    } else {
      var i, j :| 0 <= i < |s.procs| && 0 <= j < |s.procs| && !InHarmony(s, s.procs[i].cfg, s.procs[j].cfg, n, t);
      Torn(s, i, j, n, t);
    }
  }

  lemma Torn(s: Sys, i: nat, j: nat, n: Name, t: RRType)
    requires Starting(s, n) && (t == A || t == AAAA) && i < |s.procs| && j < |s.procs|
    requires !InHarmony(s, s.procs[i].cfg, s.procs[j].cfg, n, t)
    ensures !AlwaysPaired(s, n, t)
  {
    if s.procs[i].cfg.reverse.Some? && RevName(s.procs[i].cfg.ncr) == n {
      TornInReverse(s, i, j, n, t);
    } else {
      TornForward(s, i, j, n, t);
    }
  }

  // ----- names that are nobody's reverse name -----

  /** The name holds nothing but addresses of the type and DHCIDs. */
  ghost predicate Plain(z: Zone, n: Name, t: RRType) {
    forall r :: r in z && r.name == n ==> r.rtype == t || r.rtype == DHCID
  }

  /** Everything at the name was written by one and the same request. */
  ghost predicate WrittenBy(z: Zone, n: Name, c: Config) {
    c.change == CHG_ADD && c.ncr.fqdn == n && At(z, n) == {AddrRR(c.ncr), OwnerRR(c.ncr)}
  }

  ghost predicate Whole(s: Sys, z: Zone, n: Name, t: RRType) {
    && Plain(z, n, t)
    && (Has(z, n, t) ==> exists i :: 0 <= i < |s.procs| && WrittenBy(z, n, s.procs[i].cfg))
  }

  lemma {:induction false} StaysPlain(s: Sys, es: seq<Event>, n: Name, t: RRType)
    requires AllOk(s) && Valid(s, es) && Plain(s.zone, n, t)
    requires forall i :: 0 <= i < |s.procs| ==> !CanRestamp(s.procs[i].cfg, n, t)
    ensures Plain(Trace(s, es).zone, n, t)
  {
    if es != [] {
      var init, e := es[..|es| - 1], es[|es| - 1];
      var m := Trace(s, init);
      StaysPlain(s, init, n, t);
      TraceOk(s, init);
      if e.Deliver? {
        assert ProcOk(m.procs[e.i]) && !CanRestamp(s.procs[e.i].cfg, n, t);
        ServeEffect(s.procs[e.i].cfg, e.leg, m.zone);
      }
    }
  }

  lemma PlainIsWritten(z: Zone, n: Name, t: RRType, c: Config)
    requires Plain(z, n, t) && OwnedBy(z, n, t, c)
    ensures WrittenBy(z, n, c)
  {
    OwnedHas(z, c.ncr);
    forall r | r in At(z, n) ensures r in {AddrRR(c.ncr), OwnerRR(c.ncr)} {
      OwnedIs(z, c.ncr, r);
    }
  }

  /** At a name that is unused at first and that no add can restamp, an address and the DHCID of the same
      request are all there is, in every run. */
  lemma UnusedNamesStayWhole(s: Sys, es: seq<Event>, n: Name, t: RRType)
    requires AllOk(s) && Valid(s, es) && (t == A || t == AAAA) && !InUse(s.zone, n)
    requires forall i :: 0 <= i < |s.procs| ==> !CanRestamp(s.procs[i].cfg, n, t)
    ensures Whole(s, Trace(s, es).zone, n, t)
  {
    var z := Trace(s, es).zone;
    StaysPlain(s, es, n, t);
    NoTornOwnership(s, es, n, t);
    if Has(z, n, t) {
      var j :| 0 <= j < |s.procs| && OwnedBy(z, n, t, s.procs[j].cfg);
      PlainIsWritten(z, n, t, s.procs[j].cfg);
    }
  }
}
