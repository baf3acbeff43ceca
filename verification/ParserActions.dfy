/**
The semantic actions of the configuration parser.  Elements are shared and
updated in place, so they live in a heap; the actions work on a stack of open
elements, a stack of finished values, and a stack of syntactic contexts.
*/
module ParserActions {
  import opened Common
  import opened ConfigSyntax

  type Ref = nat

  datatype Node = ScalarNode(scalar: Scalar) | MapNode(entries: map<string, Ref>) | ListNode(items: seq<Ref>)

  /** The parser: its elements, the values on its own stack, the open elements, and the contexts. */
  datatype State = State(heap: seq<Node>, values: seq<Ref>, stack: seq<Ref>, ctx: Context, cstack: seq<Context>)

  const INITIAL := State([], [], [], NO_KEYWORD, [])

  /** The actions, with the values of the tokens they mention. */
  datatype Action =
    | Begin(ctx: Context)                                  // what the parser was started on
    | NewScalar(scalar: Scalar)                            // value: a scalar token
    | TakeTop                                              // value: a finished map or list
    | PushBack                                             // sub_json: value
    | OpenMap                                              // "{" that nothing refers to yet
    | OpenList                                             // "[" that nothing refers to yet
    | Put(key: string)                                     // map entry of generic JSON
    | Append                                               // list item of generic JSON
    | KeyMap(key: string, ctx: Context)                    // keyword whose value is a map
    | KeyList(key: string, ctx: Context)                   // keyword whose value is a list
    | EndKey(required: seq<string>)                        // its closing bracket
    | ItemMap                                              // "{" of a map in a keyword list
    | EndItem(required: seq<string>)                       // its closing bracket
    | Require(required: seq<string>)                       // closing bracket that leaves the element open
    | EnterKey(unique: seq<string>, ctx: Context)          // keyword before its ":"
    | SetScalar(key: string, check: Check, scalar: Scalar) // keyword with a scalar
    | PlainScalar(key: string, check: Check, scalar: Scalar)
    | SetValue(key: string)                                // keyword with a value
    | SetUserContext
    | SetComment(text: string)
    | Complain(key: string)                                // keyword that does not belong here
    | Warn                                                 // extra comma

  function Top(s: State): Ref
    requires s.stack != []
  {
    s.stack[|s.stack| - 1]
  }

  /** The open map: where keys are looked up and set. */
  predicate OnMap(s: State) {
    s.stack != [] && Top(s) < |s.heap| && s.heap[Top(s)].MapNode?
  }

  predicate OnList(s: State) {
    s.stack != [] && Top(s) < |s.heap| && s.heap[Top(s)].ListNode?
  }

  function Entries(s: State): map<string, Ref>
    requires OnMap(s)
  {
    s.heap[Top(s)].entries
  }

  function Set(s: State, key: string, r: Ref): State
    requires OnMap(s)
  {
    s.(heap := s.heap[Top(s) := MapNode(Entries(s)[key := r])])
  }

  function Add(s: State, r: Ref): State
    requires OnList(s)
  {
    s.(heap := s.heap[Top(s) := ListNode(s.heap[Top(s)].items + [r])])
  }

  function Alloc(s: State, n: Node): State { s.(heap := s.heap + [n]) }

  function Push(s: State, r: Ref): State { s.(stack := s.stack + [r]) }

  function Pop(s: State): State
    requires s.stack != []
  {
    s.(stack := s.stack[..|s.stack| - 1])
  }

  function LastValue(s: State): Ref
    requires s.values != []
  {
    s.values[|s.values| - 1]
  }

  function DropValue(s: State): State
    requires s.values != []
  {
    s.(values := s.values[..|s.values| - 1])
  }

  function Enter(s: State, c: Context): State { s.(ctx := c, cstack := s.cstack + [s.ctx]) }

  function Leave(s: State): Result<State> {
    if s.cstack == [] then Err(UnbalancedContext)
    else Ok(s.(ctx := s.cstack[|s.cstack| - 1], cstack := s.cstack[..|s.cstack| - 1]))
  }

  function ThenLeave(r: Result<State>): Result<State> {
    if r.Err? then r else Leave(r.value)
  }

  /** ctx.unique for several keys. */
  function Unique(s: State, keys: seq<string>): Option<Error>
    requires OnMap(s)
  {
    var taken := FirstTaken(keys, Entries(s).Keys);
    if taken.Some? then Some(Duplicate(taken.value, s.ctx)) else None
  }

  function Required(s: State, keys: seq<string>): Option<Error>
    requires OnMap(s)
  {
    var missing := FirstMissing(keys, Entries(s).Keys);
    if missing.Some? then Some(Missing(missing.value, s.ctx)) else None
  }

  /** What is wrong with the open element, if an action needs it to be a map. */
  function NotAMap(s: State): Result<State> {
    if s.stack == [] then Err(EmptyStack) else Err(TypeError)
  }

  /** One action. */
  function Step(s: State, a: Action): Result<State> {
    match a
    case Begin(c) => Ok(s.(ctx := c))
    case NewScalar(x) => Ok(Alloc(s, ScalarNode(x)).(values := s.values + [|s.heap|]))
    case TakeTop => if s.stack == [] then Err(EmptyStack) else Ok(Pop(s).(values := s.values + [Top(s)]))
    case PushBack => if s.values == [] then Err(EmptyStack) else Ok(Push(DropValue(s), LastValue(s)))
    case OpenMap => Ok(Push(Alloc(s, MapNode(map[])), |s.heap|))
    case OpenList => Ok(Push(Alloc(s, ListNode([])), |s.heap|))
    case Put(key) =>
      if s.values == [] then Err(EmptyStack)
      else if !OnMap(s) then NotAMap(s)
      else if Unique(s, [key]).Some? then Err(Unique(s, [key]).value)
      else Ok(DropValue(Set(s, key, LastValue(s))))
    case Append =>
      if s.values == [] then Err(EmptyStack)
      else if !OnList(s) then NotAMap(s)
      else Ok(DropValue(Add(s, LastValue(s))))
    case KeyMap(key, c) => OpenKey(s, key, c, MapNode(map[]))
    case KeyList(key, c) => OpenKey(s, key, c, ListNode([]))
    case EndKey(required) => var r := Close(s, required); if r.Err? then r else Leave(r.value)
    case ItemMap =>
      if !OnList(s) then NotAMap(s)
      else Ok(Push(Add(Alloc(s, MapNode(map[])), |s.heap|), |s.heap|))
    case EndItem(required) => Close(s, required)
    case Require(required) =>
      if required == [] then Ok(s)
      else if !OnMap(s) then NotAMap(s)
      else if Required(s, required).Some? then Err(Required(s, required).value)
      else Ok(s)
    case EnterKey(unique, c) =>
      if unique != [] && !OnMap(s) then NotAMap(s)
      else if unique != [] && Unique(s, unique).Some? then Err(Unique(s, unique).value)
      else Ok(Enter(s, c))
    case SetScalar(key, check, x) =>
      if !Passes(check, x) then Err(Rejected(check))
      else if !OnMap(s) then NotAMap(s)
      else Leave(Set(Alloc(s, ScalarNode(x)), key, |s.heap|))
    case PlainScalar(key, check, x) =>
      if !OnMap(s) then NotAMap(s)
      else if Unique(s, [key]).Some? then Err(Unique(s, [key]).value)
      else if !Passes(check, x) then Err(Rejected(check))
      else Ok(Set(Alloc(s, ScalarNode(x)), key, |s.heap|))
    case SetValue(key) =>
      if s.values == [] then Err(EmptyStack)
      else if !OnMap(s) then NotAMap(s)
      else Leave(DropValue(Set(s, key, LastValue(s))))
    case SetUserContext => ThenLeave(UserContextStep(s))
    case SetComment(text) => ThenLeave(CommentStep(s, text))
    case Complain(key) => Err(Unexpected(key, s.ctx))
    case Warn => Ok(s)
  }

  /** A new element becomes the value of a key of the open map, and then the open element itself. */
  function OpenKey(s: State, key: string, c: Context, n: Node): Result<State> {
    if !OnMap(s) then NotAMap(s)
    else if Unique(s, [key]).Some? then Err(Unique(s, [key]).value)
    else Ok(Enter(Push(Set(Alloc(s, n), key, |s.heap|), |s.heap|), c))
  }

  /** The open element is finished. */
  function Close(s: State, required: seq<string>): Result<State> {
    if s.stack == [] then Err(EmptyStack)
    else if required == [] then Ok(Pop(s))
    else if !OnMap(s) then Err(TypeError)
    else if Required(s, required).Some? then Err(Required(s, required).value)
    else Ok(Pop(s))
  }

  /** The user context on the value stack takes in the comment that may be there, in place. */
  function UserContextStep(s: State): Result<State> {
    if s.values == [] then Err(EmptyStack)
    else if !OnMap(s) then NotAMap(s)
    else
      var u := LastValue(s);
      if USER_CONTEXT !in Entries(s) then Ok(DropValue(Set(s, USER_CONTEXT, u)))
      else
        var old_ := Entries(s)[USER_CONTEXT];
        if old_ >= |s.heap| || !s.heap[old_].MapNode? then Err(TypeError)
        else if s.heap[old_].entries.Keys != {COMMENT} then Err(DuplicateUserContext)
        else if u >= |s.heap| || !s.heap[u].MapNode? then Err(TypeError)
        else
          var merged := MapNode(s.heap[u].entries[COMMENT := s.heap[old_].entries[COMMENT]]);
          Ok(DropValue(Set(s.(heap := s.heap[u := merged]), USER_CONTEXT, u)))
  }

  /** The entries of a map that do not refer to null. */
  function NotNullRefs(h: seq<Node>, m: map<string, Ref>): map<string, Ref> {
    map k | k in m && !(m[k] < |h| && h[m[k]] == ScalarNode(Null)) :: m[k]
  }

  /** A new user context with the comment takes in the entries of the one that may be there. */
  function CommentStep(s: State, text: string): Result<State> {
    if !OnMap(s) then NotAMap(s)
    else
      var note := map[COMMENT := |s.heap|];
      var s1 := Alloc(s, ScalarNode(Text(text)));
      if USER_CONTEXT !in Entries(s) then
        Ok(Set(Alloc(s1, MapNode(note)), USER_CONTEXT, |s1.heap|))
      else
        var old_ := Entries(s)[USER_CONTEXT];
        if old_ >= |s.heap| || !s.heap[old_].MapNode? then Err(TypeError)
        else if COMMENT in s.heap[old_].entries then Err(DuplicateComment)
        else
          var merged := note + NotNullRefs(s.heap, s.heap[old_].entries);
          Ok(Set(Alloc(s1, MapNode(merged)), USER_CONTEXT, |s1.heap|))
  }

  /** Actions one after the other, until one fails. */
  function Run(s: State, xs: seq<Action>): Result<State>
    decreases |xs|
  {
    if xs == [] then Ok(s)
    else
      var r := Step(s, xs[0]);
      if r.Err? then r else Run(r.value, xs[1..])
  }

  // ----- the actions of a derivation, in the order in which the parser reduces it -----

  function OfJson(v: Json): seq<Action> {
    match v
    case Atom(a) => [NewScalar(a)]
    case JMap(ms) => [OpenMap] + OfMembers(ms) + [TakeTop]
    case JList(es) => [OpenList] + OfItems(es) + [TakeTop]
  }

  function OfMembers(ms: List<Member>): seq<Action> {
    match ms
    case Nil => []
    case Cons(MemberComma, rest) => [Warn] + OfMembers(rest)
    case Cons(Entry(k, v), rest) => OfJson(v) + [Put(k)] + OfMembers(rest)
  }

  function OfItems(es: List<Item>): seq<Action> {
    match es
    case Nil => []
    case Cons(ItemComma, rest) => [Warn] + OfItems(rest)
    case Cons(Element(v), rest) => OfJson(v) + [Append] + OfItems(rest)
  }

  function OfParams(ps: List<Param>): seq<Action> {
    match ps
    case Nil => []
    case Cons(p, rest) => OfParam(p) + OfParams(rest)
  }

  function OfParam(p: Param): seq<Action> {
    match p
    case ScalarParam(unique, key, within, check, a) => [EnterKey(unique, within), SetScalar(key, check, a)]
    case PlainParam(key, check, a) => [PlainScalar(key, check, a)]
    case ValueParam(key, within, v) => [EnterKey([key], within)] + OfJson(v) + [SetValue(key)]
    case MapParam(key, within, params, required) => [KeyMap(key, within)] + OfParams(params) + [EndKey(required)]
    case ListParam(key, within, groups) => [KeyList(key, within)] + OfGroups(groups) + [EndKey([])]
    case UserContext(ms) => [EnterKey([], NO_KEYWORD)] + OfJson(JMap(ms)) + [SetUserContext]
    case Comment(text) => [EnterKey([], NO_KEYWORD), SetComment(text)]
    case UnknownParam(key) => [Complain(key)]
    case ParamComma => [Warn]
  }

  function OfGroups(gs: List<Group>): seq<Action> {
    match gs
    case Nil => []
    case Cons(GroupComma, rest) => [Warn] + OfGroups(rest)
    case Cons(Group(ps, required), rest) => [ItemMap] + OfParams(ps) + [EndItem(required)] + OfGroups(rest)
  }

  function OfStart(d: Start): seq<Action> {
    match d
    case StartJson(v) => [Begin(NO_KEYWORD)] + OfJson(v) + [PushBack]
    case StartMap(c, ps, required) => [Begin(c)] + ([OpenMap] + OfParams(ps) + [Require(required)])
    case StartList(c, gs) => [Begin(c)] + ([OpenList] + OfGroups(gs))
  }
}
