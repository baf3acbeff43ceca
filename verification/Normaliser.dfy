/**
Normalising the names of dependencies: a dictionary is renamed and merged in
place, and doing it again changes nothing as long as the wrap metadata is harmless.
*/
module Normaliser {
  import opened Common

  datatype Source = Source(kind: string, directory: string)

  /** The metadata of a package: fields, of which an absent one and an empty one count the same, and
      possibly a list of sources. */
  datatype Info = Info(fields: map<string, string>, sources: Option<seq<Source>>)
  {
    function Get(field: string): string { if field in fields then fields[field] else "" }

    function Directory(): string { if sources.None? then "" else FirstDirectory(sources.value) }

    predicate Empty() { fields == map[] && sources == None }
  }

  /** A dictionary in the order of insertion. */
  datatype Dict = Dict(keys: seq<string>, at: map<string, Info>)
  {
    ghost predicate Valid() {
      && Distinct(keys)
      && (forall k :: k in keys <==> k in at)
    }

    function Pop(k: string): Dict { Dict(Without(keys, k), map x | x in at && x != k :: at[x]) }

    function Put(k: string, v: Info): Dict { Dict(if k in at then keys else keys + [k], at[k := v]) }
  }

  predicate Distinct(keys: seq<string>) {
    keys == [] || (keys[0] !in keys[1..] && Distinct(keys[1..]))
  }

  function Without(keys: seq<string>, k: string): seq<string> {
    if keys == [] then [] else (if keys[0] == k then [] else [keys[0]]) + Without(keys[1..], k)
  }

  /** What names are made of: the stem of a .pc file's path, and the directories of wrap files. */
  datatype Naming = Naming(stem: string -> string, wraps: map<string, string>)

  const PCFILE := "pcfile"
  const NAME := "name"
  const FIELDS := ["version", "url", PCFILE, "type"]

  /** The name a .pc file gives, if any. */
  function PcName(n: Naming, info: Info): string {
    if info.Get(PCFILE) == "" then "" else n.stem(info.Get(PCFILE))
  }

  function FirstDirectory(sources: seq<Source>): string {
    if sources == [] then ""
    else if sources[0].kind == "wrap" && sources[0].directory != "" then sources[0].directory
    else FirstDirectory(sources[1..])
  }

  /** The name of a package that has none from a .pc file, or none if it is to be dropped. */
  function Fallback(n: Naming, key: string, info: Info): Option<string> {
    if key in n.wraps && n.wraps[key] != "" then Some(n.wraps[key])
    else if info.Directory() != "" then Some(info.Directory())
    else if key == "packagecache" then None
    else Some(key)
  }

  /** The canonical name of a package, or none if it is to be dropped. */
  function CanonicalName(n: Naming, key: string, info: Info): Option<string> {
    if PcName(n, info) != "" then Some(PcName(n, info)) else Fallback(n, key, info)
  }

  type Renames = seq<(string, string)>

  /** The keys to rename, in order, with their new names. */
  function ToRename(n: Naming, at: map<string, Info>, keys: seq<string>): Renames
    requires forall k :: k in keys ==> k in at
  {
    if keys == [] then []
    else
      var name := CanonicalName(n, keys[0], at[keys[0]]);
      (if name.Some? && name.value != keys[0] then [(keys[0], name.value)] else []) + ToRename(n, at, keys[1..])
  }

  function ToDrop(n: Naming, at: map<string, Info>, keys: seq<string>): seq<string>
    requires forall k :: k in keys ==> k in at
  {
    if keys == [] then []
    else
      (if CanonicalName(n, keys[0], at[keys[0]]).None? then [keys[0]] else []) + ToDrop(n, at, keys[1..])
  }

  function AllPopped(d: Dict, ks: seq<string>): Dict
    decreases |ks|
  {
    if ks == [] then d else AllPopped(d.Pop(ks[0]), ks[1..])
  }

  /** Fills fields of one entry from another where they are missing. */
  function Filled(target: Info, source: Info, fields: seq<string>): Info
    decreases |fields|
  {
    if fields == [] then target
    else
      var f := fields[0];
      var t := if target.Get(f) == "" && source.Get(f) != ""
               then target.(fields := target.fields[f := source.Get(f)]) else target;
      Filled(t, source, fields[1..])
  }

  /** Renames one entry, or merges it into the one that has the new name already. */
  function Moved(d: Dict, old_: string, new_: string): Dict {
    if old_ !in d.at then d
    else
      var source, rest := d.at[old_], d.Pop(old_);
      if new_ !in rest.at || rest.at[new_].Empty()
      then rest.Put(new_, source.(fields := source.fields[NAME := new_]))
      else rest.Put(new_, Filled(rest.at[new_], source, FIELDS))
  }

  function AllMoved(d: Dict, renames: Renames): Dict
    decreases |renames|
  {
    if renames == [] then d else AllMoved(Moved(d, renames[0].0, renames[0].1), renames[1..])
  }

  /** The dictionary without the entries to drop. */
  function Kept(n: Naming, d: Dict): Dict
    requires d.Valid()
  {
    AllPopped(d, ToDrop(n, d.at, d.keys))
  }

  /** One pass of the normaliser. */
  function Normalised(n: Naming, d: Dict): Dict
    requires d.Valid()
  {
    AllMoved(Kept(n, d), ToRename(n, d.at, d.keys))
  }

  // ----- dictionaries stay dictionaries -----

  lemma {:induction false} WithoutIs(keys: seq<string>, k: string)
    requires Distinct(keys)
    ensures Distinct(Without(keys, k)) && forall x :: x in Without(keys, k) <==> x in keys && x != k
  {
    if keys != [] {
      WithoutIs(keys[1..], k);
      assert forall x :: x in keys <==> x == keys[0] || x in keys[1..];
      var w := Without(keys[1..], k);
      if keys[0] == k {
        assert Without(keys, k) == w;
      } else {
        assert Without(keys, k)[1..] == w;
      }
    }
  }

  lemma {:induction false} DistinctAppend(keys: seq<string>, k: string)
    requires Distinct(keys) && k !in keys
    ensures Distinct(keys + [k])
  {
    if keys == [] {
      assert (keys + [k])[1..] == [];
    } else {
      DistinctAppend(keys[1..], k);
      assert (keys + [k])[1..] == keys[1..] + [k];
    }
  }

  lemma PopValid(d: Dict, k: string)
    requires d.Valid()
    ensures d.Pop(k).Valid()
  {
    WithoutIs(d.keys, k);
  }

  lemma PutValid(d: Dict, k: string, v: Info)
    requires d.Valid()
    ensures d.Put(k, v).Valid()
  {
    if k !in d.at {
      DistinctAppend(d.keys, k);
    }
  }

  lemma MovedValid(d: Dict, old_: string, new_: string)
    requires d.Valid()
    ensures Moved(d, old_, new_).Valid()
  {
    PopValid(d, old_);
    if old_ in d.at {
      var source, rest := d.at[old_], d.Pop(old_);
      PutValid(rest, new_, source.(fields := source.fields[NAME := new_]));
      if new_ in rest.at {
        PutValid(rest, new_, Filled(rest.at[new_], source, FIELDS));
      }
    }
  }

  lemma {:induction false} AllMovedValid(d: Dict, renames: Renames)
    requires d.Valid()
    ensures AllMoved(d, renames).Valid()
    decreases |renames|
  {
    if renames != [] {
      MovedValid(d, renames[0].0, renames[0].1);
      AllMovedValid(Moved(d, renames[0].0, renames[0].1), renames[1..]);
    }
  }

  lemma {:induction false} ToDropIs(n: Naming, at: map<string, Info>, keys: seq<string>)
    requires forall k :: k in keys ==> k in at
    ensures forall k :: k in ToDrop(n, at, keys) <==> k in keys && CanonicalName(n, k, at[k]).None?
  {
    if keys != [] {
      ToDropIs(n, at, keys[1..]);
      assert forall x :: x in keys <==> x == keys[0] || x in keys[1..];
    }
  }

  lemma {:induction false} AllPoppedIs(d: Dict, ks: seq<string>)
    requires d.Valid()
    ensures AllPopped(d, ks).Valid() && AllPopped(d, ks).at == map k | k in d.at && k !in ks :: d.at[k]
    decreases |ks|
  {
    if ks != [] {
      PopValid(d, ks[0]);
      AllPoppedIs(d.Pop(ks[0]), ks[1..]);
      assert forall x :: x in ks <==> x == ks[0] || x in ks[1..];
    }
  }

  lemma KeptIs(n: Naming, d: Dict)
    requires d.Valid()
    ensures var r := Kept(n, d);
      && r.Valid() && r.at.Keys <= d.at.Keys
      && (forall k :: k in r.at ==> r.at[k] == d.at[k])
      && (forall k :: k in d.at ==> (k in r.at <==> CanonicalName(n, k, d.at[k]).Some?))
  {
    ToDropIs(n, d.at, d.keys);
    AllPoppedIs(d, ToDrop(n, d.at, d.keys));
  }

  /** One pass gives a dictionary again. */
  lemma NormalisedValid(n: Naming, d: Dict)
    requires d.Valid()
    ensures Normalised(n, d).Valid()
  {
    KeptIs(n, d);
    AllMovedValid(Kept(n, d), ToRename(n, d.at, d.keys));
  }

  // ----- settled dictionaries -----

  /** Every package has its canonical name already. */
  ghost predicate Settled(n: Naming, d: Dict) {
    forall k :: k in d.at ==> CanonicalName(n, k, d.at[k]) == Some(k)
  }

  lemma {:induction false} NothingToDo(n: Naming, at: map<string, Info>, keys: seq<string>)
    requires forall k :: k in keys ==> k in at && CanonicalName(n, k, at[k]) == Some(k)
    ensures ToRename(n, at, keys) == [] && ToDrop(n, at, keys) == []
    decreases |keys|
  {
    if keys != [] {
      NothingToDo(n, at, keys[1..]);
    }
  }

  lemma SettledIsFixed(n: Naming, d: Dict)
    requires d.Valid() && Settled(n, d)
    ensures Normalised(n, d) == d
  {
    NothingToDo(n, d.at, d.keys);
  }

  // ----- a pass settles -----

  /** No entry has a directory from a wrap source. */
  ghost predicate NoSourceDirectories(d: Dict) {
    forall k :: k in d.at ==> d.at[k].Directory() == ""
  }

  /** A wrap file gives the package another name. */
  predicate Wrapped(n: Naming, k: string) { k in n.wraps && n.wraps[k] != "" && n.wraps[k] != k }

  /** What a package is called that has neither a .pc file nor a source directory. */
  function PlainName(n: Naming, k: string): Option<string> {
    if k in n.wraps && n.wraps[k] != "" then Some(n.wraps[k])
    else if k == "packagecache" then None
    else Some(k)
  }

  /** Whatever .pc files there may be: a package that a wrap file renames shares its old name with none of
      them, and its new name stays. */
  ghost predicate HarmlessWraps(n: Naming) {
    forall k :: Wrapped(n, k) ==> PlainName(n, n.wraps[k]) == Some(n.wraps[k]) && !NamedByPc(n, k)
  }

  /** The names that .pc files give to entries of a dictionary. */
  function PcNames(n: Naming, d: Dict): set<string> {
    set k | k in d.at && PcName(n, d.at[k]) != "" :: PcName(n, d.at[k])
  }

  /** If wrap metadata rename the entry, its old name is none of the .pc names, and the new one stays. */
  predicate Safe(n: Naming, pcs: set<string>, k: string, info: Info) {
    var name := Fallback(n, k, info);
    PcName(n, info) == "" && name.Some? && name.value != k ==>
      k !in pcs && Fallback(n, name.value, info) == name
  }

  ghost predicate HarmlessFor(n: Naming, d: Dict) {
    forall k :: k in d.at ==> Safe(n, PcNames(n, d), k, d.at[k])
  }

  lemma HarmlessForAll(n: Naming, d: Dict)
    requires HarmlessWraps(n) && NoSourceDirectories(d)
    ensures HarmlessFor(n, d)
  {
    forall k | k in d.at ensures Safe(n, PcNames(n, d), k, d.at[k]) {
      if k in PcNames(n, d) {
        var j :| j in d.at && PcName(n, d.at[j]) == k && k != "";
        assert n.stem(d.at[j].Get(PCFILE)) == k;
        assert NamedByPc(n, k);
      }
    }
  }

  ghost predicate NamedByPc(n: Naming, name: string) {
    name != "" && exists f :: f != "" && n.stem(f) == name
  }

  function Olds(renames: Renames): seq<string> {
    if renames == [] then [] else [renames[0].0] + Olds(renames[1..])
  }

  /** What is still to be renamed keeps its new name; everything else has its canonical name. */
  ghost predicate Underway(n: Naming, pcs: set<string>, d: Dict, renames: Renames) {
    && PcNames(n, d) <= pcs && Distinct(Olds(renames))
    && (forall r :: r in renames ==>
          && r.0 in d.at && r.0 in Olds(renames) && r.1 != r.0
          && CanonicalName(n, r.0, d.at[r.0]) == Some(r.1) && Safe(n, pcs, r.0, d.at[r.0]))
    && (forall k :: k in d.at && k !in Olds(renames) ==> CanonicalName(n, k, d.at[k]) == Some(k))
  }

  /** A field that may be filled is, if it is missing; nothing else changes. */
  lemma {:induction false} FilledIs(target: Info, source: Info, fields: seq<string>, g: string)
    ensures var f := Filled(target, source, fields);
      && f.sources == target.sources
      && f.Get(g) == if g in fields && target.Get(g) == "" then source.Get(g) else target.Get(g)
    decreases |fields|
  {
    if fields != [] {
      var h := fields[0];
      var t := if target.Get(h) == "" && source.Get(h) != ""
               then target.(fields := target.fields[h := source.Get(h)]) else target;
      FilledIs(t, source, fields[1..], g);
    }
  }

  /** A merge fills the version, the URL, the .pc file and the type, and nothing else. */
  lemma MergedFields(target: Info, source: Info, g: string)
    ensures Filled(target, source, FIELDS).Get(g) ==
      if g in {"version", "url", "pcfile", "type"} && target.Get(g) == "" then source.Get(g) else target.Get(g)
  {
    FilledIs(target, source, FIELDS, g);
    assert g in FIELDS <==> g in {"version", "url", "pcfile", "type"};
  }

  /** Every field after one move: a renamed entry has all its fields and a new name, and an entry that
      another one is merged into takes four fields over, where it lacks them. */
  lemma MovedFields(d: Dict, old_: string, new_: string, g: string)
    requires old_ in d.at && new_ != old_
    ensures var e, from := Moved(d, old_, new_), d.at[old_];
      && new_ in e.at
      && if new_ !in d.at || d.at[new_].Empty()
         then
           && e.at[new_].sources == from.sources
           && e.at[new_].Get(g) == if g == "name" then new_ else from.Get(g)
         else
           var there := d.at[new_];
           && e.at[new_].sources == there.sources
           && e.at[new_].Get(g) == if g in {"version", "url", "pcfile", "type"} && there.Get(g) == ""
                                   then from.Get(g) else there.Get(g)
  {
    if new_ in d.at {
      MergedFields(d.at[new_], d.at[old_], g);
      FilledIs(d.at[new_], d.at[old_], FIELDS, g);
    }
  }

  /** The entry that is renamed lands under its new name, or leaves it to the one that is there. */
  lemma Landing(d: Dict, old_: string, new_: string)
    requires old_ in d.at && new_ != old_
    ensures var e, from := Moved(d, old_, new_), d.at[old_];
      && e.at.Keys == d.at.Keys - {old_} + {new_}
      && (forall k :: k in e.at && k != new_ ==> e.at[k] == d.at[k])
      && if new_ !in d.at || d.at[new_].Empty()
         then
           && e.at[new_].Get(NAME) == new_
           && e.at[new_].sources == from.sources && e.at[new_].Get(PCFILE) == from.Get(PCFILE)
         else
           var there := d.at[new_];
           && e.at[new_].sources == there.sources
           && e.at[new_].Get(PCFILE) == if there.Get(PCFILE) == "" then from.Get(PCFILE) else there.Get(PCFILE)
  {
    MovedFields(d, old_, new_, PCFILE);
    MovedFields(d, old_, new_, NAME);
  }

  /** A move brings no new .pc names. */
  lemma MovedPcNames(n: Naming, d: Dict, old_: string, new_: string)
    requires old_ in d.at && new_ != old_
    ensures PcNames(n, Moved(d, old_, new_)) <= PcNames(n, d)
  {
    var e := Moved(d, old_, new_);
    Landing(d, old_, new_);
    forall name | name in PcNames(n, e) ensures name in PcNames(n, d) {
      var k :| k in e.at && PcName(n, e.at[k]) == name && name != "";
      if k != new_ {
        assert k in d.at;
      } else if name != PcName(n, d.at[old_]) {
        assert new_ in d.at && PcName(n, d.at[new_]) == name;
      }
    }
  }

  /** A package is renamed for its .pc file, or for wrap metadata that give it a lasting name. */
  lemma WhyRenamed(n: Naming, pcs: set<string>, k: string, info: Info, name: string)
    requires Safe(n, pcs, k, info) && (PcName(n, info) != "" ==> PcName(n, info) in pcs)
    requires CanonicalName(n, k, info) == Some(name) && name != k
    ensures name != ""
    ensures if PcName(n, info) != "" then PcName(n, info) == name && name in pcs
            else k !in pcs && Fallback(n, k, info) == Fallback(n, name, info) == Some(name)
  {
  }

  /** What is still to be renamed stays so. */
  lemma StillPending(n: Naming, pcs: set<string>, d: Dict, old_: string, new_: string, k: string, name: string)
    requires PcNames(n, d) <= pcs
    requires old_ in d.at && new_ != old_ && CanonicalName(n, old_, d.at[old_]) == Some(new_)
    requires k in d.at && k != old_ && CanonicalName(n, k, d.at[k]) == Some(name) && name != k
    requires Safe(n, pcs, old_, d.at[old_]) && Safe(n, pcs, k, d.at[k])
    ensures var e := Moved(d, old_, new_);
      k in e.at && CanonicalName(n, k, e.at[k]) == Some(name) && Safe(n, pcs, k, e.at[k])
  {
    Landing(d, old_, new_);
    assert PcName(n, d.at[old_]) != "" ==> PcName(n, d.at[old_]) in PcNames(n, d);
    assert PcName(n, d.at[k]) != "" ==> PcName(n, d.at[k]) in PcNames(n, d);
    WhyRenamed(n, pcs, old_, d.at[old_], new_);
    WhyRenamed(n, pcs, k, d.at[k], name);
  }

  /** What has its canonical name keeps it, and the new name is canonical too. */
  lemma NowSettled(n: Naming, pcs: set<string>, d: Dict, old_: string, new_: string, k: string)
    requires PcNames(n, d) <= pcs
    requires old_ in d.at && new_ != old_ && CanonicalName(n, old_, d.at[old_]) == Some(new_)
    requires Safe(n, pcs, old_, d.at[old_])
    requires k == new_ || k in d.at
    requires k in d.at ==> CanonicalName(n, k, d.at[k]) == Some(k)
    ensures var e := Moved(d, old_, new_); k in e.at ==> CanonicalName(n, k, e.at[k]) == Some(k)
  {
    Landing(d, old_, new_);
    assert PcName(n, d.at[old_]) != "" ==> PcName(n, d.at[old_]) in PcNames(n, d);
    WhyRenamed(n, pcs, old_, d.at[old_], new_);
  }

  lemma MoveSettles(n: Naming, pcs: set<string>, d: Dict, renames: Renames)
    requires renames != [] && Underway(n, pcs, d, renames)
    ensures Underway(n, pcs, Moved(d, renames[0].0, renames[0].1), renames[1..])
  {
    var (old_, new_) := renames[0];
    var rest, e := renames[1..], Moved(d, renames[0].0, renames[0].1);
    assert renames[0] in renames;
    assert Olds(renames)[1..] == Olds(rest);
    Landing(d, old_, new_);
    MovedPcNames(n, d, old_, new_);
    OldsHold(rest);
    forall r | r in rest
      ensures r.0 in e.at && r.1 != r.0 && CanonicalName(n, r.0, e.at[r.0]) == Some(r.1) && Safe(n, pcs, r.0, e.at[r.0])
    {
      assert r in renames && r.0 in Olds(rest);
      StillPending(n, pcs, d, old_, new_, r.0, r.1);
    }
    forall k | k in e.at && k !in Olds(rest) ensures CanonicalName(n, k, e.at[k]) == Some(k) {
      assert k != old_;
      assert k in Olds(renames) <==> k == old_ || k in Olds(rest);
      NowSettled(n, pcs, d, old_, new_, k);
    }
  }

  lemma {:induction false} OldsHold(renames: Renames)
    ensures forall r :: r in renames ==> r.0 in Olds(renames)
  {
    if renames != [] {
      OldsHold(renames[1..]);
      forall r | r in renames ensures r.0 in Olds(renames) {
        assert r == renames[0] || r in renames[1..];
      }
    }
  }

  lemma {:induction false} MovesSettle(n: Naming, pcs: set<string>, d: Dict, renames: Renames)
    requires Underway(n, pcs, d, renames)
    ensures Settled(n, AllMoved(d, renames))
    decreases |renames|
  {
    if renames != [] {
      MoveSettles(n, pcs, d, renames);
      MovesSettle(n, pcs, Moved(d, renames[0].0, renames[0].1), renames[1..]);
    }
  }

  /** The renames are those of the keys whose canonical name is another one. */
  lemma {:induction false} ToRenameIs(n: Naming, at: map<string, Info>, keys: seq<string>)
    requires Distinct(keys) && forall k :: k in keys ==> k in at
    ensures var rs := ToRename(n, at, keys);
      && Distinct(Olds(rs))
      && (forall r :: r in rs ==> r.0 in keys && CanonicalName(n, r.0, at[r.0]) == Some(r.1) && r.1 != r.0)
      && (forall k :: k in Olds(rs) <==> k in keys && CanonicalName(n, k, at[k]) !in {None, Some(k)})
    decreases |keys|
  {
    if keys != [] {
      ToRenameIs(n, at, keys[1..]);
      var name, rest := CanonicalName(n, keys[0], at[keys[0]]), ToRename(n, at, keys[1..]);
      if name.Some? && name.value != keys[0] {
        assert ToRename(n, at, keys) == [(keys[0], name.value)] + rest;
        assert ToRename(n, at, keys)[1..] == rest;
        assert Olds(ToRename(n, at, keys))[1..] == Olds(rest);
      } else {
        assert ToRename(n, at, keys) == rest;
      }
      assert forall x :: x in keys <==> x == keys[0] || x in keys[1..];
    }
  }

  /** A dictionary whose wrap metadata are harmless: one pass gives every package its canonical name... */
  lemma OnePassSettles(n: Naming, d: Dict)
    requires d.Valid() && HarmlessFor(n, d)
    ensures Settled(n, Normalised(n, d))
  {
    var kept, rs, pcs := Kept(n, d), ToRename(n, d.at, d.keys), PcNames(n, d);
    KeptIs(n, d);
    ToRenameIs(n, d.at, d.keys);
    OldsHold(rs);
    assert PcNames(n, kept) <= pcs;
    assert Underway(n, pcs, kept, rs);
    MovesSettle(n, pcs, kept, rs);
  }

  /** ...so that a second pass is the identity. */
  lemma SecondPassIsIdentity(n: Naming, d: Dict)
    requires d.Valid() && HarmlessFor(n, d)
    ensures Normalised(n, d).Valid() && Normalised(n, Normalised(n, d)) == Normalised(n, d)
  {
    NormalisedValid(n, d);
    OnePassSettles(n, d);
    SettledIsFixed(n, Normalised(n, d));
  }

  // ----- what becomes of an entry in a whole pass -----

  lemma {:induction false} AllMovedSplits(d: Dict, a: Renames, b: Renames)
    ensures AllMoved(d, a + b) == AllMoved(AllMoved(d, a), b)
    decreases |a|
  {
    if a == [] {
      assert a + b == b;
    } else {
      assert (a + b)[0] == a[0] && (a + b)[1..] == a[1..] + b;
      AllMovedSplits(Moved(d, a[0].0, a[0].1), a[1..], b);
    }
  }

  /** Moves that are not about a name leave its entry alone. */
  lemma {:induction false} MovesPast(d: Dict, renames: Renames, k: string)
    requires forall r :: r in renames ==> r.0 != k && r.1 != k && r.0 != r.1
    ensures var e := AllMoved(d, renames);
      (k in e.at <==> k in d.at) && (k in d.at ==> e.at[k] == d.at[k])
    decreases |renames|
  {
    if renames != [] {
      var r := renames[0];
      assert r in renames;
      MovesPast(Moved(d, r.0, r.1), renames[1..], k);
    }
  }

  lemma SplitAt(renames: Renames, k: string) returns (a: Renames, y: string, b: Renames)
    requires Distinct(Olds(renames)) && k in Olds(renames)
    ensures renames == a + [(k, y)] + b && (k, y) in renames
    ensures forall r :: r in a || r in b ==> r in renames && r.0 != k
  {
    OldsAt(renames, k);
    var i :| 0 <= i < |renames| && renames[i].0 == k;
    assert renames[i] in renames;
    a, y, b := renames[..i], renames[i].1, renames[i + 1..];
    forall r | r in a || r in b ensures r in renames && r.0 != k {
      assert r in a + b;
      DistinctOlds(renames, i, r);
    }
  }

  /** Moves of which just one is about two names: its old one and its new one. */
  ghost predicate OneAbout(renames: Renames, k: string, y: string) {
    && Distinct(Olds(renames)) && (k, y) in renames && y !in Olds(renames)
    && (forall r :: r in renames ==> r.0 != r.1)
    && (forall r :: r in renames && r.0 != k ==> r.1 != k && r.1 != y)
  }

  /** What a move leaves under the new name depends on the two entries only. */
  lemma MovedLocally(d: Dict, e: Dict, k: string, y: string)
    requires k != y && k in d.at && k in e.at && e.at[k] == d.at[k]
    requires (y in d.at <==> y in e.at) && (y in d.at ==> e.at[y] == d.at[y])
    ensures var m := Moved(e, k, y);
      y in m.at && y in Moved(d, k, y).at && m.at[y] == Moved(d, k, y).at[y] && k !in m.at
  {
  }

  lemma MovesAbout(d: Dict, renames: Renames, k: string, y: string)
    requires OneAbout(renames, k, y) && k in d.at
    ensures var e := AllMoved(d, renames);
      k !in e.at && y in e.at && y in Moved(d, k, y).at && e.at[y] == Moved(d, k, y).at[y]
  {
    OldsHold(renames);
    var a, x, b := SplitAt(renames, k);
    SameNew(renames, k, x, y);
    AllMovedSplits(d, a + [(k, y)], b);
    AllMovedSplits(d, a, [(k, y)]);
    var d1 := AllMoved(d, a);
    MovesPast(d, a, k);
    MovesPast(d, a, y);
    assert AllMoved(d1, [(k, y)]) == Moved(d1, k, y) by { assert [(k, y)][1..] == []; }
    MovedLocally(d, d1, k, y);
    MovesPast(Moved(d1, k, y), b, y);
    MovesPast(Moved(d1, k, y), b, k);
  }

  lemma {:induction false} SameNew(renames: Renames, k: string, x: string, y: string)
    requires Distinct(Olds(renames)) && (k, x) in renames && (k, y) in renames
    ensures x == y
  {
    var rest := renames[1..];
    OldsHold(rest);
    assert Olds(renames)[1..] == Olds(rest);
    assert renames == [renames[0]] + rest;
    if (k, x) in rest && (k, y) in rest {
      SameNew(rest, k, x, y);
    }
  }

  lemma {:induction false} OldsAt(renames: Renames, k: string)
    requires k in Olds(renames)
    ensures exists i :: 0 <= i < |renames| && renames[i].0 == k
  {
    if renames[0].0 != k {
      OldsAt(renames[1..], k);
      var i :| 0 <= i < |renames| - 1 && renames[1..][i].0 == k;
      assert renames[i + 1].0 == k;
    }
  }

  lemma {:induction false} DistinctOlds(renames: Renames, i: nat, r: (string, string))
    requires i < |renames| && Distinct(Olds(renames)) && r in renames[..i] + renames[i + 1..]
    ensures r in renames && r.0 != renames[i].0
  {
    OldsHold(renames[1..]);
    assert Olds(renames)[1..] == Olds(renames[1..]);
    if i == 0 {
      assert r in renames[1..];
    } else if r == renames[0] {
      assert renames[i] == renames[1..][i - 1] && renames[i] in renames[1..];
    } else {
      assert renames[..i][1..] == renames[1..][..i - 1] && renames[i + 1..] == renames[1..][i..];
      assert renames[..i] == [renames[0]] + renames[..i][1..];
      DistinctOlds(renames[1..], i - 1, r);
    }
  }

  /** The renames of a pass, seen from an entry that no other one gets in the way of. */
  lemma PassAbout(n: Naming, d: Dict, k: string, y: string)
    requires d.Valid() && k in d.at && CanonicalName(n, k, d.at[k]) == Some(y) && y != k
    requires y in d.at ==> CanonicalName(n, y, d.at[y]) == Some(y)
    requires forall j :: j in d.at && j != k && j != y ==> CanonicalName(n, j, d.at[j]) !in {Some(k), Some(y)}
    ensures OneAbout(ToRename(n, d.at, d.keys), k, y)
  {
    var rs := ToRename(n, d.at, d.keys);
    ToRenameIs(n, d.at, d.keys);
    OldsAt(rs, k);
    var i :| 0 <= i < |rs| && rs[i].0 == k;
    assert rs[i] in rs;
  }

  /** An entry whose new name is free, and that no other entry gets in the way of, is renamed with all it
      has: only its name field changes. */
  lemma RenamedKeepsFields(n: Naming, d: Dict, k: string, y: string, g: string)
    requires d.Valid() && k in d.at && CanonicalName(n, k, d.at[k]) == Some(y) && y !in d.at
    requires forall j :: j in d.at && j != k ==> CanonicalName(n, j, d.at[j]) !in {Some(k), Some(y)}
    ensures var e := Normalised(n, d);
      && k !in e.at && y in e.at && e.at[y].sources == d.at[k].sources
      && e.at[y].Get(g) == if g == "name" then y else d.at[k].Get(g)
  {
    KeptIs(n, d);
    PassAbout(n, d, k, y);
    MovesAbout(Kept(n, d), ToRename(n, d.at, d.keys), k, y);
    MovedFields(Kept(n, d), k, y, g);
  }

  /** An entry that has its canonical name, and that exactly one other entry is merged into, takes from it
      what it lacks of the version, the URL, the .pc file and the type, and keeps everything else. */
  lemma MergedKeepsFields(n: Naming, d: Dict, k: string, y: string, g: string)
    requires d.Valid() && k in d.at && CanonicalName(n, k, d.at[k]) == Some(y) && y != k && y in d.at
    requires CanonicalName(n, y, d.at[y]) == Some(y) && !d.at[y].Empty()
    requires forall j :: j in d.at && j != k && j != y ==> CanonicalName(n, j, d.at[j]) !in {Some(k), Some(y)}
    ensures var e := Normalised(n, d);
      && k !in e.at && y in e.at && e.at[y].sources == d.at[y].sources
      && e.at[y].Get(g) == if g in {"version", "url", "pcfile", "type"} && d.at[y].Get(g) == ""
                           then d.at[k].Get(g) else d.at[y].Get(g)
  {
    KeptIs(n, d);
    PassAbout(n, d, k, y);
    MovesAbout(Kept(n, d), ToRename(n, d.at, d.keys), k, y);
    MovedFields(Kept(n, d), k, y, g);
  }

  /** An entry that has its canonical name, and that no other entry is merged into, stays as it is. */
  lemma SettledStays(n: Naming, d: Dict, k: string)
    requires d.Valid() && k in d.at && CanonicalName(n, k, d.at[k]) == Some(k)
    requires forall j :: j in d.at && j != k ==> CanonicalName(n, j, d.at[j]) != Some(k)
    ensures var e := Normalised(n, d); k in e.at && e.at[k] == d.at[k]
  {
    KeptIs(n, d);
    ToRenameIs(n, d.at, d.keys);
    MovesPast(Kept(n, d), ToRename(n, d.at, d.keys), k);
  }

  // ----- which names there are after a pass -----

  /** Whether a name is there after some renames, in order. */
  predicate Ends(renames: Renames, y: string, there: bool)
    decreases |renames|
  {
    if renames == [] then there
    else Ends(renames[1..], y, renames[0].1 == y || (there && renames[0].0 != y))
  }

  lemma {:induction false} EndsIs(d: Dict, renames: Renames, y: string)
    requires Distinct(Olds(renames)) && forall r :: r in renames ==> r.0 in d.at && r.0 != r.1
    ensures y in AllMoved(d, renames).at <==> Ends(renames, y, y in d.at)
    decreases |renames|
  {
    if renames != [] {
      var r := renames[0];
      assert r in renames;
      MovedKeys(d, r.0, r.1);
      OldsHold(renames[1..]);
      assert Olds(renames)[1..] == Olds(renames[1..]);
      EndsIs(Moved(d, r.0, r.1), renames[1..], y);
    }
  }

  /** A rename that no later one takes its name away from. */
  ghost predicate Lasts(renames: Renames, i: nat)
    requires i < |renames|
  {
    forall j :: i < j < |renames| ==> renames[j].0 != renames[i].1
  }

  lemma {:induction false} EndsMeans(renames: Renames, y: string, there: bool)
    requires forall r :: r in renames ==> r.0 != r.1
    ensures Ends(renames, y, there) <==>
      (there && y !in Olds(renames)) || exists i :: 0 <= i < |renames| && renames[i].1 == y && Lasts(renames, i)
    decreases |renames|
  {
    if renames != [] {
      var r, rest := renames[0], renames[1..];
      assert r in renames;
      EndsMeans(rest, y, r.1 == y || (there && r.0 != y));
      OldsMeans(rest, y);
      assert y in Olds(renames) <==> r.0 == y || y in Olds(rest) by { assert Olds(renames)[1..] == Olds(rest); }
      if i :| 0 <= i < |rest| && rest[i].1 == y && Lasts(rest, i) {
        assert renames[i + 1].1 == y && Lasts(renames, i + 1);
      }
      if i :| 0 < i < |renames| && renames[i].1 == y && Lasts(renames, i) {
        LastsLater(renames, i);
      }
      if r.1 == y {
        assert Lasts(renames, 0) <==> y !in Olds(rest);
      }
    }
  }

  lemma LastsLater(renames: Renames, i: nat)
    requires 0 < i < |renames| && Lasts(renames, i)
    ensures renames[1..][i - 1] == renames[i] && Lasts(renames[1..], i - 1)
  {
  }

  lemma {:induction false} OldsMeans(renames: Renames, y: string)
    ensures y in Olds(renames) <==> exists j :: 0 <= j < |renames| && renames[j].0 == y
  {
    if y in Olds(renames) {
      OldsAt(renames, y);
    }
    if j :| 0 <= j < |renames| && renames[j].0 == y {
      OldsHold(renames);
      assert renames[j] in renames;
    }
  }

  ghost predicate Given(renames: Renames, y: string) { exists i :: 0 <= i < |renames| && renames[i].1 == y }

  ghost predicate GivenForGood(renames: Renames, y: string) {
    exists i :: 0 <= i < |renames| && renames[i].1 == y && Lasts(renames, i)
  }

  predicate Keeps(n: Naming, d: Dict, y: string) { y in d.at && CanonicalName(n, y, d.at[y]) == Some(y) }

  ghost predicate IsCanonical(n: Naming, d: Dict, y: string) {
    exists k :: k in d.at && CanonicalName(n, k, d.at[k]) == Some(y)
  }

  /** The names after a pass: the packages that keep theirs, and the new names that no later rename takes
      away again. */
  lemma NamesAfterPass(n: Naming, d: Dict, y: string)
    requires d.Valid()
    ensures y in Normalised(n, d).at <==> Keeps(n, d, y) || GivenForGood(ToRename(n, d.at, d.keys), y)
  {
    var kept, rs := Kept(n, d), ToRename(n, d.at, d.keys);
    KeptIs(n, d);
    ToRenameIs(n, d.at, d.keys);
    EndsIs(kept, rs, y);
    EndsMeans(rs, y, y in kept.at);
  }

  lemma CanonicalIs(n: Naming, d: Dict, y: string)
    requires d.Valid()
    ensures IsCanonical(n, d, y) <==> Keeps(n, d, y) || Given(ToRename(n, d.at, d.keys), y)
  {
    var rs := ToRename(n, d.at, d.keys);
    ToRenameIs(n, d.at, d.keys);
    if IsCanonical(n, d, y) && !Keeps(n, d, y) {
      var k :| k in d.at && CanonicalName(n, k, d.at[k]) == Some(y);
      OldsAt(rs, k);
      var i :| 0 <= i < |rs| && rs[i].0 == k;
      assert rs[i] in rs;
    }
    if Given(rs, y) {
      var i :| 0 <= i < |rs| && rs[i].1 == y;
      assert rs[i] in rs;
    }
  }

  lemma KeptIsForGood(n: Naming, d: Dict, y: string)
    requires d.Valid() && Keeps(n, d, y) && Given(ToRename(n, d.at, d.keys), y)
    ensures GivenForGood(ToRename(n, d.at, d.keys), y)
  {
    var rs := ToRename(n, d.at, d.keys);
    ToRenameIs(n, d.at, d.keys);
    OldsMeans(rs, y);
    var i :| 0 <= i < |rs| && rs[i].1 == y;
    assert Lasts(rs, i);
  }

  /** The name is there after a pass exactly if it is the canonical name of some package. */
  ghost predicate NameRight(n: Naming, d: Dict, y: string)
    requires d.Valid()
  {
    y in Normalised(n, d).at <==> IsCanonical(n, d, y)
  }

  /** If the name is given, then by a rename after which the package that had it before is not renamed. */
  ghost predicate Secure(renames: Renames, y: string) { Given(renames, y) ==> GivenForGood(renames, y) }

  lemma NameRightIff(n: Naming, d: Dict, y: string)
    requires d.Valid()
    ensures NameRight(n, d, y) <==> Secure(ToRename(n, d.at, d.keys), y)
  {
    NamesAfterPass(n, d, y);
    CanonicalIs(n, d, y);
    if Keeps(n, d, y) && Given(ToRename(n, d.at, d.keys), y) {
      KeptIsForGood(n, d, y);
    }
  }

  /** After a pass every canonical name is there, and no other, if and only if each new name is given for
      good. */
  lemma NamesSurviveIff(n: Naming, d: Dict)
    requires d.Valid()
    ensures NamesRight(n, d) <==> AllSecure(ToRename(n, d.at, d.keys))
  {
    if NamesRight(n, d) {
      forall y ensures Secure(ToRename(n, d.at, d.keys), y) {
        assert NameRight(n, d, y);
        NameRightIff(n, d, y);
      }
    }
    if AllSecure(ToRename(n, d.at, d.keys)) {
      forall y ensures NameRight(n, d, y) {
        assert Secure(ToRename(n, d.at, d.keys), y);
        NameRightIff(n, d, y);
      }
    }
  }

  ghost predicate NamesRight(n: Naming, d: Dict)
    requires d.Valid()
  {
    forall y :: NameRight(n, d, y)
  }

  ghost predicate AllSecure(renames: Renames) { forall y :: Secure(renames, y) }

  /** A package that is renamed to a name whose own package is renamed after it: the name is lost. */
  lemma ChainLoses(n: Naming, d: Dict, a: string, b: string, c: string)
    requires d.keys == [a, b] && d.at.Keys == {a, b} && a != b && b != c
    requires CanonicalName(n, a, d.at[a]) == Some(b) && CanonicalName(n, b, d.at[b]) == Some(c)
    ensures d.Valid() && !NameRight(n, d, b)
  {
    assert d.keys[1..] == [b] && [b][1..] == [];
    assert ToRename(n, d.at, [b]) == [(b, c)];
    var rs := ToRename(n, d.at, d.keys);
    assert rs == [(a, b), (b, c)];
    assert rs[0].1 == b && rs[1].0 == b && rs[1].1 != b;
    NameRightIff(n, d, b);
  }

  // ----- how names are found -----

  /** The directory of the first source of kind "wrap" that has one. */
  lemma {:induction false} FirstDirectoryIs(sources: seq<Source>)
    ensures var r := FirstDirectory(sources);
      if r == "" then forall i :: 0 <= i < |sources| && sources[i].kind == "wrap" ==> sources[i].directory == ""
      else exists i ::
        && 0 <= i < |sources| && sources[i].kind == "wrap" && sources[i].directory == r
        && forall j :: 0 <= j < i && sources[j].kind == "wrap" ==> sources[j].directory == ""
  {
    if sources != [] && !(sources[0].kind == "wrap" && sources[0].directory != "") {
      FirstDirectoryIs(sources[1..]);
      var r := FirstDirectory(sources);
      if r != "" {
        var i :| 0 <= i < |sources| - 1 && sources[1..][i].kind == "wrap" && sources[1..][i].directory == r
          && forall j :: 0 <= j < i && sources[1..][j].kind == "wrap" ==> sources[1..][j].directory == "";
        assert sources[i + 1].kind == "wrap" && sources[i + 1].directory == r;
        assert forall j :: 1 <= j < i + 1 ==> sources[j] == sources[1..][j - 1];
      } else {
        assert forall j :: 1 <= j < |sources| ==> sources[j] == sources[1..][j - 1];
      }
    }
  }

  /** The order in which a name is looked for: the .pc file, the wrap file, the sources, and then "packagecache"
      is dropped and every other name kept. */
  lemma NameOrder(n: Naming, k: string, info: Info)
    ensures
      var file := if "pcfile" in info.fields then info.fields["pcfile"] else "";
      var pc := if file != "" then n.stem(file) else "";
      var wrap := if k in n.wraps then n.wraps[k] else "";
      var dir := if info.sources.Some? then FirstDirectory(info.sources.value) else "";
      CanonicalName(n, k, info) ==
        if pc != "" then Some(pc)
        else if wrap != "" then Some(wrap)
        else if dir != "" then Some(dir)
        else if k == "packagecache" then None
        else Some(k)
  {
  }

  // ----- and only settled dictionaries are left alone -----

  lemma MovedKeys(d: Dict, old_: string, new_: string)
    ensures Moved(d, old_, new_).at.Keys == if old_ in d.at then d.at.Keys - {old_} + {new_} else d.at.Keys
  {
  }

  lemma MovedSize(d: Dict, old_: string, new_: string)
    ensures |Moved(d, old_, new_).at.Keys| <= |d.at.Keys|
    ensures old_ in d.at && new_ in d.at && new_ != old_ ==> |Moved(d, old_, new_).at.Keys| < |d.at.Keys|
  {
    MovedKeys(d, old_, new_);
    if old_ in d.at {
      var rest := d.at.Keys - {old_};
      assert |rest| == |d.at.Keys| - 1;
      if new_ in rest {
        assert rest + {new_} == rest;
      }
    }
  }

  /** Renaming never makes entries, and never removes one that is not to be renamed. */
  lemma {:induction false} MovesShrink(d: Dict, renames: Renames)
    ensures |AllMoved(d, renames).at.Keys| <= |d.at.Keys|
    ensures forall k :: k in d.at && k !in Olds(renames) ==> k in AllMoved(d, renames).at
    decreases |renames|
  {
    if renames != [] {
      var e := Moved(d, renames[0].0, renames[0].1);
      MovedSize(d, renames[0].0, renames[0].1);
      MovedKeys(d, renames[0].0, renames[0].1);
      MovesShrink(e, renames[1..]);
      assert Olds(renames)[1..] == Olds(renames[1..]);
    }
  }

  /** The first rename takes an entry away or makes a name that was not there and stays. */
  lemma RenamingChanges(kept: Dict, all: set<string>, rs: Renames)
    requires rs != [] && kept.at.Keys <= all && rs[0].0 in kept.at && rs[0].1 != rs[0].0
    requires forall k :: k in Olds(rs) ==> k in all
    ensures AllMoved(kept, rs).at.Keys != all
  {
    var (old_, new_) := rs[0];
    MovedSize(kept, old_, new_);
    MovedKeys(kept, old_, new_);
    MovesShrink(Moved(kept, old_, new_), rs[1..]);
    SubsetSize(kept.at.Keys, all);
    assert Olds(rs)[1..] == Olds(rs[1..]);
    if new_ !in kept.at && new_ in all {
      SubsetSize(kept.at.Keys + {new_}, all);
    }
  }

  /** Dropping or renaming anything changes the set of names. */
  lemma UnsettledChanges(n: Naming, d: Dict)
    requires d.Valid() && !Settled(n, d)
    ensures Normalised(n, d).at.Keys != d.at.Keys
  {
    var kept, rs := Kept(n, d), ToRename(n, d.at, d.keys);
    KeptIs(n, d);
    ToRenameIs(n, d.at, d.keys);
    if rs == [] {
      var k :| k in d.at && CanonicalName(n, k, d.at[k]) != Some(k);
      assert k !in Olds(rs) && k !in kept.at;
    } else {
      assert rs[0] in rs;
      RenamingChanges(kept, d.at.Keys, rs);
    }
  }

  lemma {:induction false} SubsetSize(a: set<string>, b: set<string>)
    requires a <= b
    ensures |a| <= |b|
  {
    if a != {} {
      var x :| x in a;
      SubsetSize(a - {x}, b - {x});
    }
  }

  /** A pass leaves a dictionary as it is if and only if every package has its canonical name. */
  lemma FixedIffSettled(n: Naming, d: Dict)
    requires d.Valid()
    ensures Normalised(n, d) == d <==> Settled(n, d)
  {
    if Settled(n, d) {
      SettledIsFixed(n, d);
    } else {
      UnsettledChanges(n, d);
    }
  }

  // ----- wrap metadata breaks it -----

  /** Whatever the dictionary, as long as its sources name no directories, one pass is enough. */
  ghost predicate OnePassIsEnough(n: Naming) {
    forall d: Dict :: d.Valid() && NoSourceDirectories(d) ==>
      Normalised(n, d).Valid() && Normalised(n, Normalised(n, d)) == Normalised(n, d)
  }

  /** The package x, whose name y comes from wrap metadata, after a package whose .pc file is called x. */
  function Clash(x: string, info: Info, other: string, pcfile: string): Dict {
    Dict([other, x], map[other := Info(map[PCFILE := pcfile], None), x := info])
  }

  lemma ClashRenames(n: Naming, x: string, y: string, info: Info, other: string, pcfile: string)
    requires other !in {x, y} && x != y && x != "" && pcfile != "" && n.stem(pcfile) == x
    requires CanonicalName(n, x, info) == Some(y)
    ensures var d := Clash(x, info, other, pcfile);
      && d.Valid() && ToRename(n, d.at, d.keys) == [(other, x), (x, y)]
      && Kept(n, d) == d
  {
    var d := Clash(x, info, other, pcfile);
    assert d.keys[1..] == [x] && [x][1..] == [];
    assert ToRename(n, d.at, [x]) == [(x, y)];
    assert ToDrop(n, d.at, [x]) == [];
  }

  /** The .pc file is merged into x, which then moves to y: y is left with the .pc file of x. */
  lemma ClashMoves(x: string, y: string, info: Info, other: string, pcfile: string)
    requires other !in {x, y} && x != y && info.Get(PCFILE) == "" && !info.Empty()
    ensures var e := AllMoved(Clash(x, info, other, pcfile), [(other, x), (x, y)]);
      e.at.Keys == {y} && e.at[y].Get(PCFILE) == pcfile
  {
    var d, rs := Clash(x, info, other, pcfile), [(other, x), (x, y)];
    FilledIs(info, d.at[other], FIELDS, PCFILE);
    var d1 := Moved(d, other, x);
    assert d1.at.Keys == {x} && d1.at[x].Get(PCFILE) == pcfile;
    var d2 := Moved(d1, x, y);
    assert rs[1..] == [(x, y)] && rs[1..][1..] == [];
    assert AllMoved(d1, rs[1..]) == AllMoved(d2, []) == d2;
  }

  /** One wrap name, from a wrap file or from a source, is enough to make a second pass do something. */
  lemma WrapNameBreaks(n: Naming, x: string, y: string, info: Info, other: string, pcfile: string)
    requires other !in {x, y} && x != y && x != "" && pcfile != "" && n.stem(pcfile) == x
    requires info.Get(PCFILE) == "" && !info.Empty() && CanonicalName(n, x, info) == Some(y)
    ensures Clash(x, info, other, pcfile).Valid()
    ensures var e := Normalised(n, Clash(x, info, other, pcfile));
      e.Valid() && Normalised(n, e) != e
  {
    var d := Clash(x, info, other, pcfile);
    ClashRenames(n, x, y, info, other, pcfile);
    ClashMoves(x, y, info, other, pcfile);
    NormalisedValid(n, d);
    var e := Normalised(n, d);
    assert y in e.at && CanonicalName(n, y, e.at[y]) == Some(x);
    UnsettledChanges(n, e);
  }

  /** A wrap file that gives a name that is not the name of its package in turn. */
  lemma ShiftingNameBreaks(n: Naming, x: string, info: Info)
    requires Wrapped(n, x) && PlainName(n, n.wraps[x]) != Some(n.wraps[x])
    requires PcName(n, info) == "" && info.Directory() == ""
    ensures var d := Dict([x], map[x := info]);
      && d.Valid() && Normalised(n, d).Valid() && Normalised(n, Normalised(n, d)) != Normalised(n, d)
  {
    var d, y := Dict([x], map[x := info]), n.wraps[x];
    NormalisedValid(n, d);
    Landing(d, x, y);
    assert d.keys[1..] == [];
    assert ToDrop(n, d.at, []) == [] && ToRename(n, d.at, []) == [];
    assert ToRename(n, d.at, d.keys) == [(x, y)] && ToDrop(n, d.at, d.keys) == [];
    assert [(x, y)][1..] == [];
    var e := Normalised(n, d);
    assert e == AllMoved(Moved(d, x, y), []);
    assert y in e.at && CanonicalName(n, y, e.at[y]) == PlainName(n, y);
    UnsettledChanges(n, e);
  }

  /** One pass is enough for every dictionary if and only if the wrap files are harmless whatever .pc
      files there may be. */
  lemma OnePassIsEnoughIff(n: Naming)
    ensures OnePassIsEnough(n) <==> HarmlessWraps(n)
  {
    if HarmlessWraps(n) {
      forall d: Dict | d.Valid() && NoSourceDirectories(d)
        ensures Normalised(n, d).Valid() && Normalised(n, Normalised(n, d)) == Normalised(n, d)
      {
        HarmlessForAll(n, d);
        SecondPassIsIdentity(n, d);
      }
    } else {
      var x :| Wrapped(n, x) && (PlainName(n, n.wraps[x]) == Some(n.wraps[x]) ==> NamedByPc(n, x));
      if NamedByPc(n, x) {
        SharedNameHarms(n, x);
      } else {
        ShiftingNameHarms(n, x);
      }
    }
  }

  lemma ShiftingNameHarms(n: Naming, x: string)
    requires Wrapped(n, x) && PlainName(n, n.wraps[x]) != Some(n.wraps[x])
    ensures !OnePassIsEnough(n)
  {
    var info := Info(map[], None);
    ShiftingNameBreaks(n, x, info);
    assert NoSourceDirectories(Dict([x], map[x := info]));
  }

  lemma SharedNameHarms(n: Naming, x: string)
    requires Wrapped(n, x) && NamedByPc(n, x)
    ensures !OnePassIsEnough(n)
  {
    var y, info := n.wraps[x], Info(map[NAME := x], None);
    assert NAME in info.fields;
    var f :| f != "" && n.stem(f) == x;
    var other := x + y + "_";
    assert |other| > |x| && |other| > |y|;
    WrapNameBreaks(n, x, y, info, other, f);
    assert NoSourceDirectories(Clash(x, info, other, f));
  }

  // ----- in place -----

  function Dropping(n: Naming, key: string, info: Info, drops: seq<string>): seq<string> {
    if CanonicalName(n, key, info).None? then drops + [key] else drops
  }

  function Renaming(n: Naming, key: string, info: Info, remap: Renames): Renames {
    var name := CanonicalName(n, key, info);
    if name.Some? && name.value != key then remap + [(key, name.value)] else remap
  }

  ghost predicate Planned(n: Naming, at: map<string, Info>, keys: seq<string>, i: nat,
                          drops: seq<string>, remap: Renames)
    requires i <= |keys| && forall k :: k in keys ==> k in at
  {
    && drops + ToDrop(n, at, keys[i..]) == ToDrop(n, at, keys)
    && remap + ToRename(n, at, keys[i..]) == ToRename(n, at, keys)
  }

  lemma PlanStep(n: Naming, at: map<string, Info>, keys: seq<string>, i: nat, drops: seq<string>, remap: Renames)
    requires i < |keys| && (forall k :: k in keys ==> k in at) && Planned(n, at, keys, i, drops, remap)
    ensures Planned(n, at, keys, i + 1,
                    Dropping(n, keys[i], at[keys[i]], drops), Renaming(n, keys[i], at[keys[i]], remap))
  {
    assert keys[i..][0] == keys[i] && keys[i..][1..] == keys[i + 1..];
    Reassociate(drops, keys[i], ToDrop(n, at, keys[i + 1..]));
    var name := CanonicalName(n, keys[i], at[keys[i]]);
    if name.Some? {
      Reassociate(remap, (keys[i], name.value), ToRename(n, at, keys[i + 1..]));
    }
  }

  class Dependencies {
    var keys: seq<string>
    var at: map<string, Info>

    ghost function Now(): Dict
      reads this
    {
      Dict(keys, at)
    }

    constructor (d: Dict)
      ensures Now() == d
    {
      keys, at := d.keys, d.at;
    }

    method PopEntry(k: string) returns (v: Info)
      requires k in at
      modifies this
      ensures v == old(at)[k] && Now() == old(Now()).Pop(k)
    {
      v := at[k];
      at := map x | x in at && x != k :: at[x];
      keys := Without(keys, k);
    }

    method PutEntry(k: string, v: Info)
      modifies this
      ensures Now() == old(Now()).Put(k, v)
    {
      if k !in at {
        keys := keys + [k];
      }
      at := at[k := v];
    }

    /** Fills the fields that are missing, one after the other. */
    static method Fill(target: Info, source: Info) returns (filled: Info)
      ensures filled == Filled(target, source, FIELDS)
    {
      filled := target;
      var i := 0;
      while i < |FIELDS|
        invariant 0 <= i <= |FIELDS| && Filled(target, source, FIELDS) == Filled(filled, source, FIELDS[i..])
      {
        var f := FIELDS[i];
        assert FIELDS[i..][1..] == FIELDS[i + 1..];
        if filled.Get(f) == "" && source.Get(f) != "" {
          filled := filled.(fields := filled.fields[f := source.Get(f)]);
        }
        i := i + 1;
      }
    }

    method Move(old_: string, new_: string)
      modifies this
      ensures Now() == Moved(old(Now()), old_, new_)
    {
      if old_ !in at {
        return;
      }
      var source := PopEntry(old_);
      if new_ !in at || at[new_].Empty() {
        PutEntry(new_, source.(fields := source.fields[NAME := new_]));
      } else {
        var filled := Fill(at[new_], source);
        PutEntry(new_, filled);
      }
    }

    /** The first pass over the items. */
    method Plan(n: Naming) returns (drops: seq<string>, remap: Renames)
      requires Now().Valid()
      ensures drops == ToDrop(n, at, keys) && remap == ToRename(n, at, keys)
    {
      var items, entries := keys, at;
      drops, remap := [], [];
      var i := 0;
      while i < |items|
        invariant 0 <= i <= |items| && Planned(n, entries, items, i, drops, remap)
      {
        var name := CanonicalName(n, items[i], entries[items[i]]);
        PlanStep(n, entries, items, i, drops, remap);
        if name.None? {
          drops := drops + [items[i]];
        } else if name.value != items[i] {
          remap := remap + [(items[i], name.value)];
        }
        i := i + 1;
      }
    }

    method DropAll(drops: seq<string>)
      modifies this
      ensures Now() == AllPopped(old(Now()), drops)
    {
      var i := 0;
      while i < |drops|
        invariant 0 <= i <= |drops| && AllPopped(Now(), drops[i..]) == AllPopped(old(Now()), drops)
      {
        assert drops[i..][1..] == drops[i + 1..];
        at := map x | x in at && x != drops[i] :: at[x];
        keys := Without(keys, drops[i]);
        i := i + 1;
      }
    }

    /** normalise_deps_inplace. */
    method Normalise(n: Naming)
      requires Now().Valid()
      modifies this
      ensures Now() == Normalised(n, old(Now()))
    {
      var drops, remap := Plan(n);
      DropAll(drops);
      var i := 0;
      while i < |remap|
        invariant 0 <= i <= |remap| && AllMoved(Now(), remap[i..]) == Normalised(n, old(Now()))
      {
        assert remap[i..][1..] == remap[i + 1..];
        Move(remap[i].0, remap[i].1);
        i := i + 1;
      }
    }
  }
}
