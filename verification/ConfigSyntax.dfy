/**
The D2 configuration as syntax, and its meaning: the tree of elements a
derivation of the grammar stands for, or the first error in it.
*/
module ConfigSyntax {
  import opened Common

  datatype List<T> = Nil | Cons(head: T, tail: List<T>)

  datatype Scalar = Int(i: int) | Double(x: real) | Bool(b: bool) | Text(s: string) | Null

  /** Elements as values. */
  datatype Tree = Leaf(scalar: Scalar) | Obj(entries: map<string, Tree>) | Arr(items: seq<Tree>)

  /** Syntactic contexts, which decide what a string is to the scanner and what an error names. */
  datatype Context =
    | NO_KEYWORD | CONFIG | DHCPDDNS | TSIG_KEY | TSIG_KEYS | ALGORITHM | DIGEST_BITS | SECRET
    | FORWARD_DDNS | REVERSE_DDNS | DDNS_DOMAIN | DDNS_DOMAINS | DNS_SERVER | DNS_SERVERS
    | CONTROL_SOCKETS | CONTROL_SOCKET_TYPE | AUTHENTICATION | AUTH_TYPE | CLIENTS
    | LOGGERS | OUTPUT_OPTIONS | NCR_PROTOCOL | NCR_FORMAT | HOOKS_LIBRARIES

  datatype Error =
    | Duplicate(key: string, where: Context)
    | Missing(key: string, where: Context)
    | Unexpected(key: string, where: Context)
    | Rejected(check: Check)
    | DuplicateUserContext
    | DuplicateComment
    | TypeError
    | UnbalancedContext
    | EmptyStack

  datatype Result<+T> = Ok(value: T) | Err(error: Error)

  /** What a keyword demands of its value. */
  datatype Check = Anything | Port | Positive | DigestBits | NotBlank | Blank

  predicate Passes(check: Check, a: Scalar) {
    match check
    case Anything => true
    case Port => a.Int? && 0 < a.i < 65536
    case Positive => a.Int? && 0 < a.i
    case DigestBits => a.Int? && 0 <= a.i && a.i % 8 == 0
    case NotBlank => a != Text("")
    case Blank => a == Text("")
  }

  // ----- derivations -----

  /** Generic JSON, with the extra commas that the grammar lets pass. */
  datatype Json = Atom(scalar: Scalar) | JMap(members: List<Member>) | JList(elements: List<Item>)

  datatype Member = Entry(key: string, value: Json) | MemberComma

  datatype Item = Element(value: Json) | ItemComma

  /** One parameter of a keyword map.  The grammar has many productions but these shapes only: they
      differ in the keyword, the context entered, the check, and what must be unique or present. */
  datatype Param =
    | ScalarParam(unique: seq<string>, key: string, within: Context, check: Check, scalar: Scalar)
    | PlainParam(key: string, check: Check, scalar: Scalar)
    | ValueParam(key: string, within: Context, value: Json)
    | MapParam(key: string, within: Context, params: List<Param>, required: seq<string>)
    | ListParam(key: string, within: Context, groups: List<Group>)
    | UserContext(members: List<Member>)
    | Comment(text: string)
    | UnknownParam(key: string)
    | ParamComma

  /** One map in a list of maps. */
  datatype Group = Group(params: List<Param>, required: seq<string>) | GroupComma

  /** What a parser can be started on. */
  datatype Start =
    | StartJson(value: Json)
    | StartMap(context: Context, params: List<Param>, required: seq<string>)
    | StartList(context: Context, groups: List<Group>)

  // ----- meaning -----

  /** The meaning of generic JSON in a context. */
  function Eval(v: Json, c: Context): Result<Tree> {
    match v
    case Atom(a) => Ok(Leaf(a))
    case JMap(ms) => AsObj(EvalMembers(ms, c, map[]))
    case JList(es) => AsArr(EvalItems(es, c, []))
  }

  function EvalMembers(ms: List<Member>, c: Context, acc: map<string, Tree>): Result<map<string, Tree>> {
    match ms
    case Nil => Ok(acc)
    case Cons(MemberComma, rest) => EvalMembers(rest, c, acc)
    case Cons(Entry(k, v), rest) =>
      var t := Eval(v, c);
      if t.Err? then Err(t.error)
      else if k in acc then Err(Duplicate(k, c))
      else EvalMembers(rest, c, acc[k := t.value])
  }

  function EvalItems(es: List<Item>, c: Context, acc: seq<Tree>): Result<seq<Tree>> {
    match es
    case Nil => Ok(acc)
    case Cons(ItemComma, rest) => EvalItems(rest, c, acc)
    case Cons(Element(v), rest) =>
      var t := Eval(v, c);
      if t.Err? then Err(t.error) else EvalItems(rest, c, acc + [t.value])
  }

  /** The first of some keys that a map already has. */
  function FirstTaken(keys: seq<string>, taken: set<string>): Option<string> {
    if keys == [] then None
    else if keys[0] in taken then Some(keys[0])
    else FirstTaken(keys[1..], taken)
  }

  function FirstMissing(keys: seq<string>, taken: set<string>): Option<string> {
    if keys == [] then None
    else if keys[0] !in taken then Some(keys[0])
    else FirstMissing(keys[1..], taken)
  }

  /** A user context after what the map already has: it may only follow a comment, which it takes in. */
  function WithUserContext(acc: map<string, Tree>, m: map<string, Tree>): Result<map<string, Tree>> {
    if USER_CONTEXT !in acc then Ok(acc[USER_CONTEXT := Obj(m)])
    else
      var before := acc[USER_CONTEXT];
      if !before.Obj? then Err(TypeError)
      else if before.entries.Keys != {COMMENT} then Err(DuplicateUserContext)
      else Ok(acc[USER_CONTEXT := Obj(m[COMMENT := before.entries[COMMENT]])])
  }

  /** A comment joins the user context that is already there, without its null entries. */
  function WithComment(acc: map<string, Tree>, text: string): Result<map<string, Tree>> {
    var note := map[COMMENT := Leaf(Text(text))];
    if USER_CONTEXT !in acc then Ok(acc[USER_CONTEXT := Obj(note)])
    else
      var before := acc[USER_CONTEXT];
      if !before.Obj? then Err(TypeError)
      else if COMMENT in before.entries then Err(DuplicateComment)
      else Ok(acc[USER_CONTEXT := Obj(note + NotNull(before.entries))])
  }

  function NotNull(m: map<string, Tree>): map<string, Tree> {
    map k | k in m && m[k] != Leaf(Null) :: m[k]
  }

  const USER_CONTEXT := "user-context"
  const COMMENT := "comment"

  /** The meaning of the parameters of a keyword map: lexical scoping of contexts. */
  function EvalParams(ps: List<Param>, c: Context, acc: map<string, Tree>): Result<map<string, Tree>>
    decreases ps, 0
  {
    match ps
    case Nil => Ok(acc)
    case Cons(p, rest) =>
      var r := EvalParam(p, c, acc);
      if r.Err? then r else EvalParams(rest, c, r.value)
  }

  function EvalParam(p: Param, c: Context, acc: map<string, Tree>): Result<map<string, Tree>> {
    match p
    case ScalarParam(unique, key, _, check, a) =>
      var taken := FirstTaken(unique, acc.Keys);
      if taken.Some? then Err(Duplicate(taken.value, c))
      else if !Passes(check, a) then Err(Rejected(check))
      else Ok(acc[key := Leaf(a)])
    case PlainParam(key, check, a) =>
      if key in acc then Err(Duplicate(key, c))
      else if !Passes(check, a) then Err(Rejected(check))
      else Ok(acc[key := Leaf(a)])
    case ValueParam(key, within, v) =>
      if key in acc then Err(Duplicate(key, c)) else WithTree(acc, key, Eval(v, within))
    case MapParam(key, within, params, required) =>
      if key in acc then Err(Duplicate(key, c))
      else WithTree(acc, key, AsObj(EvalGroup(params, within, required)))
    case ListParam(key, within, groups) =>
      if key in acc then Err(Duplicate(key, c)) else WithTree(acc, key, AsArr(EvalGroups(groups, within, [])))
    case UserContext(ms) =>
      var m := EvalMembers(ms, NO_KEYWORD, map[]);
      if m.Err? then m else WithUserContext(acc, m.value)
    case Comment(text) => WithComment(acc, text)
    case UnknownParam(key) => Err(Unexpected(key, c))
    case ParamComma => Ok(acc)
  }

  function EvalGroup(ps: List<Param>, c: Context, required: seq<string>): Result<map<string, Tree>>
    decreases ps, 1
  {
    Complete(EvalParams(ps, c, map[]), c, required)
  }

  /** A map is complete when the keys its production requires are there. */
  function Complete(m: Result<map<string, Tree>>, c: Context, required: seq<string>): Result<map<string, Tree>> {
    if m.Err? then m
    else
      var missing := FirstMissing(required, m.value.Keys);
      if missing.Some? then Err(Missing(missing.value, c)) else m
  }

  function WithTree(acc: map<string, Tree>, key: string, t: Result<Tree>): Result<map<string, Tree>> {
    if t.Err? then Err(t.error) else Ok(acc[key := t.value])
  }

  function AsObj(m: Result<map<string, Tree>>): Result<Tree> {
    if m.Err? then Err(m.error) else Ok(Obj(m.value))
  }

  function AsArr(l: Result<seq<Tree>>): Result<Tree> {
    if l.Err? then Err(l.error) else Ok(Arr(l.value))
  }

  function EvalGroups(gs: List<Group>, c: Context, acc: seq<Tree>): Result<seq<Tree>> {
    match gs
    case Nil => Ok(acc)
    case Cons(GroupComma, rest) => EvalGroups(rest, c, acc)
    case Cons(Group(ps, required), rest) =>
      var m := EvalGroup(ps, c, required);
      if m.Err? then Err(m.error) else EvalGroups(rest, c, acc + [Obj(m.value)])
  }

  function EvalStart(d: Start): Result<Tree> {
    match d
    case StartJson(v) => Eval(v, NO_KEYWORD)
    case StartMap(c, ps, required) => AsObj(EvalGroup(ps, c, required))
    case StartList(c, gs) => AsArr(EvalGroups(gs, c, []))
  }

  /** Whether the comment comes before or after the user context makes no difference exactly when the
      user context has neither a comment of its own, which one order would silently replace, nor null
      entries, which the other order drops. */
  lemma CommentAndContextCommute(acc: map<string, Tree>, m: map<string, Tree>, text: string)
    requires USER_CONTEXT !in acc
    ensures var first, second := WithComment(acc, text), WithUserContext(acc, m);
      first.Ok? && second.Ok? &&
      (WithUserContext(first.value, m) == WithComment(second.value, text)
       <==> COMMENT !in m && forall k :: k in m ==> m[k] != Leaf(Null))
  {
    var note := map[COMMENT := Leaf(Text(text))];
    var first, second := WithComment(acc, text).value, WithUserContext(acc, m).value;
    var left, right := WithUserContext(first, m), WithComment(second, text);
    assert left == Ok(first[USER_CONTEXT := Obj(m[COMMENT := Leaf(Text(text))])]);
    if COMMENT !in m {
      assert right == Ok(second[USER_CONTEXT := Obj(note + NotNull(m))]);
      if forall k :: k in m ==> m[k] != Leaf(Null) {
        var both := Obj(note + NotNull(m));
        assert m[COMMENT := Leaf(Text(text))] == both.entries;
        assert first[USER_CONTEXT := both] == acc[USER_CONTEXT := both] == second[USER_CONTEXT := both];
      } else {
        var k :| k in m && m[k] == Leaf(Null);
        assert k in m[COMMENT := Leaf(Text(text))] && k !in note + NotNull(m);
        assert left.value[USER_CONTEXT].entries != right.value[USER_CONTEXT].entries;
      }
    }
  }
}
