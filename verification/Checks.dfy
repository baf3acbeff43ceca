/**
What the checks on values accept, by number, and that a configuration is
accepted only if every value in it, at any depth, passes its check.
*/
module Checks {
  import opened Common
  import opened ConfigSyntax

  /** A port is between 1 and 65535, a timeout is at least 1, digest bits are zero or a positive multiple
      of eight, and texts may have to be there or not to be there. */
  predicate Acceptable(check: Check, a: Scalar) {
    match a
    case Int(i) =>
      (match check
       case Anything => true
       case Port => 1 <= i <= 65535
       case Positive => i >= 1
       case DigestBits => i == 0 || (i >= 8 && exists k :: 1 <= k <= i && i == 8 * k)
       case NotBlank => true
       case Blank => false)
    case Text(s) =>
      (match check
       case Anything => true
       case NotBlank => |s| > 0
       case Blank => |s| == 0
       case _ => false)
    case _ => check == Anything || check == NotBlank
  }

  lemma PassesIs(check: Check, a: Scalar)
    ensures Passes(check, a) <==> Acceptable(check, a)
  {
    if a.Int? && check == DigestBits && a.i > 0 && a.i % 8 == 0 {
      assert a.i == 8 * (a.i / 8);
    }
  }

  /** One keyword with a scalar, in a map that does not have it yet. */
  lemma ScalarIsChecked(key: string, check: Check, a: Scalar, c: Context, acc: map<string, Tree>)
    requires key !in acc
    ensures EvalParam(PlainParam(key, check, a), c, acc)
         == if Acceptable(check, a) then Ok(acc[key := Leaf(a)]) else Err(Rejected(check))
  {
    PassesIs(check, a);
  }

  /** A port by number, in a configuration of its own. */
  lemma PortIsChecked(c: Context, i: int)
    ensures EvalStart(StartMap(c, Cons(PlainParam("port", Port, Int(i)), Nil), []))
         == if 1 <= i <= 65535 then Ok(Obj(map["port" := Leaf(Int(i))])) else Err(Rejected(Port))
  {
    var p, m: map<string, Tree> := PlainParam("port", Port, Int(i)), map[];
    ScalarIsChecked("port", Port, Int(i), c, m);
    assert m["port" := Leaf(Int(i))] == map["port" := Leaf(Int(i))];
    var r := EvalParam(p, c, m);
    assert EvalParams(Cons(p, Nil), c, m) == if r.Err? then r else EvalParams(Nil, c, r.value);
    assert EvalGroup(Cons(p, Nil), c, []) == Complete(EvalParams(Cons(p, Nil), c, m), c, []);
  }

  // ----- whole configurations -----

  predicate ParamChecked(p: Param) {
    match p
    case ScalarParam(_, _, _, check, a) => Acceptable(check, a)
    case PlainParam(_, check, a) => Acceptable(check, a)
    case MapParam(_, _, params, _) => ParamsChecked(params)
    case ListParam(_, _, groups) => GroupsChecked(groups)
    case _ => true
  }

  predicate ParamsChecked(ps: List<Param>) {
    ps.Nil? || (ParamChecked(ps.head) && ParamsChecked(ps.tail))
  }

  predicate GroupsChecked(gs: List<Group>) {
    gs.Nil? || ((gs.head.GroupComma? || ParamsChecked(gs.head.params)) && GroupsChecked(gs.tail))
  }

  predicate AllChecked(d: Start) {
    match d
    case StartJson(_) => true
    case StartMap(_, ps, _) => ParamsChecked(ps)
    case StartList(_, gs) => GroupsChecked(gs)
  }

  /** The error says that a value was rejected. */
  predicate Rejection<T>(r: Result<T>) { r.Err? && r.error.Rejected? }

  lemma {:induction false} ParamIsChecked(p: Param, c: Context, acc: map<string, Tree>)
    ensures EvalParam(p, c, acc).Ok? ==> ParamChecked(p)
    ensures Rejection(EvalParam(p, c, acc)) ==> !ParamChecked(p)
    decreases p, 0
  {
    match p
    case ScalarParam(_, _, _, check, a) => PassesIs(check, a);
    case PlainParam(_, check, a) => PassesIs(check, a);
    case MapParam(_, within, params, required) =>
      ParamsAreChecked(params, within, map[]);
      assert EvalGroup(params, within, required) == Complete(EvalParams(params, within, map[]), within, required);
    case ListParam(_, within, groups) => GroupsAreChecked(groups, within, []);
    case ValueParam(_, within, v) => JsonIsUnchecked(v, within);
    case UserContext(ms) => MembersAreUnchecked(ms, NO_KEYWORD, map[]);
    case _ =>
  }

  lemma {:induction false} ParamsAreChecked(ps: List<Param>, c: Context, acc: map<string, Tree>)
    ensures EvalParams(ps, c, acc).Ok? ==> ParamsChecked(ps)
    ensures Rejection(EvalParams(ps, c, acc)) ==> !ParamsChecked(ps)
    decreases ps, 1
  {
    if ps.Cons? {
      ParamIsChecked(ps.head, c, acc);
      var r := EvalParam(ps.head, c, acc);
      if r.Ok? {
        ParamsAreChecked(ps.tail, c, r.value);
      }
    }
  }

  lemma {:induction false} GroupsAreChecked(gs: List<Group>, c: Context, acc: seq<Tree>)
    ensures EvalGroups(gs, c, acc).Ok? ==> GroupsChecked(gs)
    ensures Rejection(EvalGroups(gs, c, acc)) ==> !GroupsChecked(gs)
    decreases gs, 1
  {
    match gs
    case Nil =>
    case Cons(GroupComma, rest) => GroupsAreChecked(rest, c, acc);
    case Cons(Group(ps, required), rest) =>
      ParamsAreChecked(ps, c, map[]);
      var m := EvalGroup(ps, c, required);
      if m.Ok? {
        GroupsAreChecked(rest, c, acc + [Obj(m.value)]);
      }
  }

  lemma {:induction false} JsonIsUnchecked(v: Json, c: Context)
    ensures !Rejection(Eval(v, c))
    decreases v
  {
    match v
    case Atom(_) =>
    case JMap(ms) => MembersAreUnchecked(ms, c, map[]);
    case JList(es) => ItemsAreUnchecked(es, c, []);
  }

  lemma {:induction false} MembersAreUnchecked(ms: List<Member>, c: Context, acc: map<string, Tree>)
    ensures !Rejection(EvalMembers(ms, c, acc))
    decreases ms
  {
    match ms
    case Nil =>
    case Cons(MemberComma, rest) => MembersAreUnchecked(rest, c, acc);
    case Cons(Entry(k, v), rest) =>
      JsonIsUnchecked(v, c);
      if Eval(v, c).Ok? {
        MembersAreUnchecked(rest, c, acc[k := Eval(v, c).value]);
      }
  }

  lemma {:induction false} ItemsAreUnchecked(es: List<Item>, c: Context, acc: seq<Tree>)
    ensures !Rejection(EvalItems(es, c, acc))
    decreases es
  {
    match es
    case Nil =>
    case Cons(ItemComma, rest) => ItemsAreUnchecked(rest, c, acc);
    case Cons(Element(v), rest) =>
      JsonIsUnchecked(v, c);
      if Eval(v, c).Ok? {
        ItemsAreUnchecked(rest, c, acc + [Eval(v, c).value]);
      }
  }

  /** A configuration is accepted only if every value of a keyword in it is acceptable, and rejected for a
      value only if one is not. */
  lemma AcceptedIsChecked(d: Start)
    ensures EvalStart(d).Ok? ==> AllChecked(d)
    ensures Rejection(EvalStart(d)) ==> !AllChecked(d)
  {
    match d
    case StartJson(v) => JsonIsUnchecked(v, NO_KEYWORD);
    case StartMap(c, ps, _) => ParamsAreChecked(ps, c, map[]);
    case StartList(c, gs) => GroupsAreChecked(gs, c, []);
  }

  // ----- keys -----

  /** The key named in an error about a key that is there twice is the first that is there already. */
  lemma {:induction false} FirstTakenIs(keys: seq<string>, taken: set<string>)
    ensures var r := FirstTaken(keys, taken);
      if r.None? then forall i :: 0 <= i < |keys| ==> keys[i] !in taken
      else exists i :: 0 <= i < |keys| && keys[i] == r.value && keys[i] in taken && Free(keys[..i], taken)
  {
    if keys != [] && keys[0] !in taken {
      FirstTakenIs(keys[1..], taken);
      var r := FirstTaken(keys, taken);
      if r.Some? {
        var i :| 0 <= i < |keys| - 1 && keys[1..][i] == r.value && r.value in taken && Free(keys[1..][..i], taken);
        assert keys[..i + 1] == [keys[0]] + keys[1..][..i];
        assert keys[i + 1] == r.value;
      } else {
        assert forall i :: 1 <= i < |keys| ==> keys[i] == keys[1..][i - 1];
      }
    }
  }

  predicate Free(keys: seq<string>, taken: set<string>) { forall k :: k in keys ==> k !in taken }

  /** The key named in an error about a missing key is the first that is missing. */
  lemma {:induction false} FirstMissingIs(keys: seq<string>, there: set<string>)
    ensures var r := FirstMissing(keys, there);
      if r.None? then forall i :: 0 <= i < |keys| ==> keys[i] in there
      else exists i :: 0 <= i < |keys| && keys[i] == r.value && keys[i] !in there && Present(keys[..i], there)
  {
    if keys != [] && keys[0] in there {
      FirstMissingIs(keys[1..], there);
      var r := FirstMissing(keys, there);
      if r.Some? {
        var i :| 0 <= i < |keys| - 1 && keys[1..][i] == r.value && r.value !in there && Present(keys[1..][..i], there);
        assert keys[..i + 1] == [keys[0]] + keys[1..][..i];
        assert keys[i + 1] == r.value;
      } else {
        assert forall i :: 1 <= i < |keys| ==> keys[i] == keys[1..][i - 1];
      }
    }
  }

  predicate Present(keys: seq<string>, there: set<string>) { forall k :: k in keys ==> k in there }

  /** Where a comment ends up, by the names of the entries. */
  lemma CommentGoes(acc: map<string, Tree>, text: string, m: map<string, Tree>)
    ensures "user-context" !in acc ==>
      WithComment(acc, text) == Ok(acc["user-context" := Obj(map["comment" := Leaf(Text(text))])])
    ensures "comment" !in m ==>
      var r := WithComment(acc["user-context" := Obj(m)], text);
      && r.Ok? && r.value.Keys == acc.Keys + {"user-context"} && r.value["user-context"].Obj?
      && var e := r.value["user-context"].entries;
         && "comment" in e && e["comment"] == Leaf(Text(text))
         && forall k :: k != "comment" ==>
              (k in e <==> k in m && m[k] != Leaf(Null)) && (k in e ==> e[k] == m[k])
    ensures "comment" in m ==> WithComment(acc["user-context" := Obj(m)], text) == Err(DuplicateComment)
  {
  }

  /** Where a user context ends up. */
  lemma UserContextGoes(acc: map<string, Tree>, m: map<string, Tree>, before: map<string, Tree>)
    ensures "user-context" !in acc ==> WithUserContext(acc, m) == Ok(acc["user-context" := Obj(m)])
    ensures before.Keys == {"comment"} ==>
      var r := WithUserContext(acc["user-context" := Obj(before)], m);
      && r.Ok? && r.value.Keys == acc.Keys + {"user-context"}
      && r.value["user-context"] == Obj(m["comment" := before["comment"]])
    ensures before.Keys != {"comment"} ==>
      WithUserContext(acc["user-context" := Obj(before)], m) == Err(DuplicateUserContext)
  {
  }
}
