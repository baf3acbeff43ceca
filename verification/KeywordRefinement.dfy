/**
The actions of the keyword productions: children are linked into their parents
before they are filled, contexts are entered and left, and the user context and
the comment are merged in place.
*/
module KeywordRefinement {
  import opened Common
  import opened ConfigSyntax
  import opened ParserActions
  import opened ParserRefinement

  /** What a keyword's context was entered for is done: leaving it cannot fail. */
  lemma LeaveUndoes(s: State, c: Context, m: map<string, Tree>, u: State)
    requires s.stack != [] && FilledMap(Enter(s, c), Ok(m), Ok(u))
    ensures FilledMap(s, Ok(m), Leave(u))
  {
    assert Enter(s, c).cstack[..|s.cstack|] == s.cstack;
  }

  lemma LeaveAfter(s: State, c: Context, f: Result<map<string, Tree>>, r: Result<State>)
    requires s.stack != [] && FilledMap(Enter(s, c), f, r)
    ensures FilledMap(s, f, ThenLeave(r))
  {
    if f.Ok? {
      LeaveUndoes(s, c, f.value, r.value);
    }
  }

  lemma ScalarSets(s: State, m: map<string, Tree>, key: string, a: Scalar)
    requires MapAt(s, m)
    ensures FilledMap(s, Ok(m[key := Leaf(a)]), Ok(Set(Alloc(s, ScalarNode(a)), key, |s.heap|)))
  {
    var t := Alloc(s, ScalarNode(a)).(values := s.values + [|s.heap|]);
    assert DropValue(t).values == s.values;
    PutFills(s, t, m, key, Leaf(a));
  }

  lemma ScalarRuns(s: State, p: Param)
    requires p.ScalarParam?
    ensures Run(s, OfParam(p)) == Next(Step(s, EnterKey(p.unique, p.within)), SetScalar(p.key, p.check, p.scalar))
  {
    RunTwo(s, EnterKey(p.unique, p.within), SetScalar(p.key, p.check, p.scalar));
  }

  lemma ScalarEnters(s: State, m: map<string, Tree>, unique: seq<string>, c: Context)
    requires MapAt(s, m)
    ensures Step(s, EnterKey(unique, c)) ==
      var taken := FirstTaken(unique, m.Keys);
      if taken.Some? then Err(Duplicate(taken.value, s.ctx)) else Ok(Enter(s, c))
  {
  }

  lemma ScalarLeaves(s: State, m: map<string, Tree>, c: Context, key: string, a: Scalar)
    requires MapAt(s, m)
    ensures var t := Enter(s, c);
      FilledMap(s, Ok(m[key := Leaf(a)]), Leave(Set(Alloc(t, ScalarNode(a)), key, |t.heap|)))
  {
    var t := Enter(s, c);
    ScalarSets(t, m, key, a);
    LeaveUndoes(s, c, m[key := Leaf(a)], Set(Alloc(t, ScalarNode(a)), key, |t.heap|));
  }

  lemma ScalarFills(s: State, p: Param, m: map<string, Tree>)
    requires MapAt(s, m) && p.ScalarParam?
    ensures FilledMap(s, EvalParam(p, s.ctx, m),
                      Next(Step(s, EnterKey(p.unique, p.within)), SetScalar(p.key, p.check, p.scalar)))
  {
    ScalarEnters(s, m, p.unique, p.within);
    ScalarLeaves(s, m, p.within, p.key, p.scalar);
  }

  lemma PlainFills(s: State, p: Param, m: map<string, Tree>)
    requires MapAt(s, m) && p.PlainParam?
    ensures FilledMap(s, EvalParam(p, s.ctx, m), Run(s, OfParam(p)))
  {
    RunOne(s, PlainScalar(p.key, p.check, p.scalar));
    OneTaken(p.key, m.Keys);
    ScalarSets(s, m, p.key, p.scalar);
  }

  lemma ValueRuns(s: State, key: string, c: Context, v: Json)
    requires OnMap(s)
    ensures Run(s, OfParam(ValueParam(key, c, v))) ==
      if key in Entries(s) then Err(Duplicate(key, s.ctx)) else
      Next(Run(Enter(s, c), OfJson(v)), SetValue(key))
  {
    RunBracket(s, EnterKey([key], c), OfJson(v), SetValue(key));
    OneTaken(key, Entries(s).Keys);
  }

  /** A value built in its own context becomes an entry. */
  lemma ValueSets(s: State, key: string, c: Context, e: Result<Tree>, q: Result<State>, m: map<string, Tree>)
    requires MapAt(s, m) && Built(Enter(s, c), e, q)
    ensures FilledMap(s, WithTree(m, key, e), Next(q, SetValue(key)))
  {
    if e.Ok? {
      var t, u := Enter(s, c), q.value;
      PutFills(t, u, m, key, e.value);
      LeaveUndoes(s, c, m[key := e.value], DropValue(Set(u, key, LastValue(u))));
    }
  }

  lemma ValueFills(s: State, key: string, c: Context, v: Json, m: map<string, Tree>)
    requires MapAt(s, m)
    ensures FilledMap(s, EvalParam(ValueParam(key, c, v), s.ctx, m), Run(s, OfParam(ValueParam(key, c, v))))
  {
    ValueRuns(s, key, c, v);
    if key !in m {
      JsonBuilds(Enter(s, c), v);
      ValueSets(s, key, c, Eval(v, c), Run(Enter(s, c), OfJson(v)), m);
    }
  }

  /** A child opened under a key of the open map. */
  function Opened(s: State, key: string, c: Context, n: Node): State
    requires OnMap(s)
  {
    Enter(Push(Set(Alloc(s, n), key, |s.heap|), |s.heap|), c)
  }

  /** Closing the child brings both stacks back. */
  lemma CloseBalances(s: State, key: string, c: Context, n: Node, u: State)
    requires OnMap(s) && Balanced(Opened(s, key, c, n), u)
    ensures u.stack != [] && Leave(Pop(u)).Ok? && Balanced(s, Leave(Pop(u)).value)
    ensures Leave(Pop(u)).value.heap == u.heap
  {
    assert Pop(u).stack == s.stack;
    assert (s.cstack + [s.ctx])[..|s.cstack|] == s.cstack;
  }

  /** The child is an entry of the map that was open before. */
  lemma ChildReads(s: State, m: map<string, Tree>, key: string, c: Context, n: Node, h: seq<Node>, v: Tree)
    requires MapAt(s, m) && Keeps(Opened(s, key, c, n).heap, h, |s.heap|)
    requires Reads(h, |s.heap|, v, |s.heap|)
    ensures Keeps(s.heap, h, Top(s)) && h[Top(s)] == MapNode(Entries(s)[key := |s.heap|])
    ensures ReadsMap(h, h[Top(s)].entries, m[key := v], Top(s) + 1)
  {
    var p := Top(s);
    var t := Opened(s, key, c, n);
    assert h[p] == t.heap[p];
    MapFrame(s.heap, h, Entries(s), m, p + 1, p + 1);
    ReadsFrame(h, h, |s.heap|, v, |s.heap|, p + 1);
  }

  lemma ChildFills(s: State, m: map<string, Tree>, key: string, c: Context, n: Node, w: State, v: Tree)
    requires MapAt(s, m) && Balanced(s, w) && Keeps(Opened(s, key, c, n).heap, w.heap, |s.heap|)
    requires Reads(w.heap, |s.heap|, v, |s.heap|)
    ensures FilledMap(s, Ok(m[key := v]), Ok(w))
  {
    ChildReads(s, m, key, c, n, w.heap, v);
  }

  lemma KeyMapStep(s: State, key: string, c: Context)
    requires OnMap(s)
    ensures Step(s, KeyMap(key, c)) ==
      if key in Entries(s) then Err(Duplicate(key, s.ctx)) else Ok(Opened(s, key, c, MapNode(map[])))
  {
    OneTaken(key, Entries(s).Keys);
  }

  lemma KeyListStep(s: State, key: string, c: Context)
    requires OnMap(s)
    ensures Step(s, KeyList(key, c)) ==
      if key in Entries(s) then Err(Duplicate(key, s.ctx)) else Ok(Opened(s, key, c, ListNode([])))
  {
    OneTaken(key, Entries(s).Keys);
  }

  lemma KeyMapRuns(s: State, p: Param)
    requires OnMap(s) && p.MapParam?
    ensures Run(s, OfParam(p)) ==
      if p.key in Entries(s) then Err(Duplicate(p.key, s.ctx)) else
      Next(Run(Opened(s, p.key, p.within, MapNode(map[])), OfParams(p.params)), EndKey(p.required))
  {
    KeyMapStep(s, p.key, p.within);
    RunBracket(s, KeyMap(p.key, p.within), OfParams(p.params), EndKey(p.required));
  }

  lemma KeyListRuns(s: State, p: Param)
    requires OnMap(s) && p.ListParam?
    ensures Run(s, OfParam(p)) ==
      if p.key in Entries(s) then Err(Duplicate(p.key, s.ctx)) else
      Next(Run(Opened(s, p.key, p.within, ListNode([])), OfGroups(p.groups)), EndKey([]))
  {
    KeyListStep(s, p.key, p.within);
    RunBracket(s, KeyList(p.key, p.within), OfGroups(p.groups), EndKey([]));
  }

  /** The closing bracket of a keyword map. */
  lemma KeyMapEnds(s: State, key: string, c: Context, e: Result<map<string, Tree>>, q: Result<State>,
                   required: seq<string>, m: map<string, Tree>)
    requires MapAt(s, m) && FilledMap(Opened(s, key, c, MapNode(map[])), e, q)
    ensures FilledMap(s, WithTree(m, key, AsObj(Complete(e, c, required))), Next(q, EndKey(required)))
  {
    if e.Ok? {
      var u := q.value;
      MapFrame(u.heap, u.heap, Entries(u), e.value, |s.heap| + 1, |s.heap|);
      CloseBalances(s, key, c, MapNode(map[]), u);
      ChildFills(s, m, key, c, MapNode(map[]), Leave(Pop(u)).value, Obj(e.value));
    }
  }

  lemma KeyListEnds(s: State, key: string, c: Context, e: Result<seq<Tree>>, q: Result<State>, m: map<string, Tree>)
    requires MapAt(s, m) && FilledList(Opened(s, key, c, ListNode([])), e, q)
    ensures FilledMap(s, WithTree(m, key, AsArr(e)), Next(q, EndKey([])))
  {
    if e.Ok? {
      var u := q.value;
      ListFrame(u.heap, u.heap, u.heap[Top(u)].items, e.value, |s.heap| + 1, |s.heap|);
      CloseBalances(s, key, c, ListNode([]), u);
      ChildFills(s, m, key, c, ListNode([]), Leave(Pop(u)).value, Arr(e.value));
    }
  }

  lemma MapParamFills(s: State, p: Param, m: map<string, Tree>)
    requires MapAt(s, m) && p.MapParam?
    requires p.key !in m ==> var t := Opened(s, p.key, p.within, MapNode(map[]));
      FilledMap(t, EvalParams(p.params, p.within, map[]), Run(t, OfParams(p.params)))
    ensures FilledMap(s, EvalParam(p, s.ctx, m), Run(s, OfParam(p)))
  {
    KeyMapRuns(s, p);
    if p.key !in m {
      var t := Opened(s, p.key, p.within, MapNode(map[]));
      KeyMapEnds(s, p.key, p.within, EvalParams(p.params, p.within, map[]), Run(t, OfParams(p.params)), p.required, m);
    }
  }

  lemma ListParamFills(s: State, p: Param, m: map<string, Tree>)
    requires MapAt(s, m) && p.ListParam?
    requires p.key !in m ==> var t := Opened(s, p.key, p.within, ListNode([]));
      FilledList(t, EvalGroups(p.groups, p.within, []), Run(t, OfGroups(p.groups)))
    ensures FilledMap(s, EvalParam(p, s.ctx, m), Run(s, OfParam(p)))
  {
    KeyListRuns(s, p);
    if p.key !in m {
      var t := Opened(s, p.key, p.within, ListNode([]));
      KeyListEnds(s, p.key, p.within, EvalGroups(p.groups, p.within, []), Run(t, OfGroups(p.groups)), m);
    }
  }

  // ----- user context and comment -----

  /** The user context takes in the comment that was there. */
  lemma MergedReads(h: seq<Node>, r: Ref, um: map<string, Tree>, c: Ref, note: Tree, lo: nat)
    requires lo <= r < |h| && h[r].MapNode? && ReadsMap(h, h[r].entries, um, r + 1)
    requires Reads(h[..r], c, note, lo)
    ensures Reads(h[r := MapNode(h[r].entries[COMMENT := c])], r, Obj(um[COMMENT := note]), lo)
  {
    var g := h[r := MapNode(h[r].entries[COMMENT := c])];
    MapFrame(h, g, h[r].entries, um, r + 1, lo);
    ReadsFrame(h[..r], g, c, note, lo, lo);
  }

  lemma UserContextMerges(s: State, u: State, m: map<string, Tree>, um: map<string, Tree>)
    requires MapAt(s, m) && USER_CONTEXT in m && m[USER_CONTEXT].Obj? && m[USER_CONTEXT].entries.Keys == {COMMENT}
    requires BuiltMap(s, Ok(um), Ok(u))
    ensures FilledMap(s, WithUserContext(m, um), UserContextStep(u))
  {
    var old_ := Entries(s)[USER_CONTEXT];
    var before := m[USER_CONTEXT].entries;
    assert Reads(s.heap, old_, m[USER_CONTEXT], Top(s) + 1);
    var c := s.heap[old_].entries[COMMENT];
    assert u.heap[..|s.heap|] == s.heap;
    MergedReads(u.heap, |s.heap|, um, c, before[COMMENT], Top(s) + 1);
    var t := u.(heap := u.heap[|s.heap| := MapNode(u.heap[|s.heap|].entries[COMMENT := c])]);
    PutLow(s, t, m, USER_CONTEXT, Obj(um[COMMENT := before[COMMENT]]));
  }

  lemma UserContextAlone(s: State, u: State, m: map<string, Tree>, um: map<string, Tree>)
    requires MapAt(s, m) && USER_CONTEXT !in m && BuiltMap(s, Ok(um), Ok(u))
    ensures FilledMap(s, WithUserContext(m, um), UserContextStep(u))
  {
    BuiltMapIsBuilt(s, Ok(um), Ok(u));
    PutFills(s, u, m, USER_CONTEXT, Obj(um));
  }

  lemma UserContextFails(s: State, u: State, m: map<string, Tree>, um: map<string, Tree>)
    requires MapAt(s, m) && USER_CONTEXT in m && BuiltMap(s, Ok(um), Ok(u))
    requires !m[USER_CONTEXT].Obj? || m[USER_CONTEXT].entries.Keys != {COMMENT}
    ensures FilledMap(s, WithUserContext(m, um), UserContextStep(u))
  {
    assert Reads(s.heap, Entries(s)[USER_CONTEXT], m[USER_CONTEXT], Top(s) + 1);
    assert u.heap[..|s.heap|] == s.heap;
  }

  lemma UserContextMeets(s: State, u: State, m: map<string, Tree>, um: map<string, Tree>)
    requires MapAt(s, m) && BuiltMap(s, Ok(um), Ok(u))
    ensures FilledMap(s, WithUserContext(m, um), UserContextStep(u))
  {
    if USER_CONTEXT !in m {
      UserContextAlone(s, u, m, um);
    } else if m[USER_CONTEXT].Obj? && m[USER_CONTEXT].entries.Keys == {COMMENT} {
      UserContextMerges(s, u, m, um);
    } else {
      UserContextFails(s, u, m, um);
    }
  }

  /** A user context that was built in a context of its own is set. */
  lemma UserContextSets(s: State, e: Result<map<string, Tree>>, q: Result<State>, m: map<string, Tree>)
    requires MapAt(s, m) && BuiltMap(Enter(s, NO_KEYWORD), e, q)
    ensures FilledMap(s, if e.Err? then e else WithUserContext(m, e.value),
                      if q.Err? then q else ThenLeave(UserContextStep(q.value)))
  {
    if e.Ok? {
      UserContextMeets(Enter(s, NO_KEYWORD), q.value, m, e.value);
      LeaveAfter(s, NO_KEYWORD, WithUserContext(m, e.value), UserContextStep(q.value));
    }
  }

  lemma UserContextRuns(s: State, ms: List<Member>)
    ensures Run(s, OfParam(UserContext(ms))) == Next(Run(Enter(s, NO_KEYWORD), OfJson(JMap(ms))), SetUserContext)
  {
    RunBracket(s, EnterKey([], NO_KEYWORD), OfJson(JMap(ms)), SetUserContext);
  }

  lemma NextUserContext(q: Result<State>)
    ensures Next(q, SetUserContext) == if q.Err? then q else ThenLeave(UserContextStep(q.value))
  {
  }

  lemma EvalUserContext(ms: List<Member>, c: Context, m: map<string, Tree>)
    ensures var e := EvalMembers(ms, NO_KEYWORD, map[]);
      EvalParam(UserContext(ms), c, m) == if e.Err? then e else WithUserContext(m, e.value)
  {
  }

  lemma UserContextFills(s: State, ms: List<Member>, m: map<string, Tree>)
    requires MapAt(s, m)
    ensures FilledMap(s, EvalParam(UserContext(ms), s.ctx, m),
                      Next(Run(Enter(s, NO_KEYWORD), OfJson(JMap(ms))), SetUserContext))
  {
    var e, q := EvalMembers(ms, NO_KEYWORD, map[]), Run(Enter(s, NO_KEYWORD), OfJson(JMap(ms)));
    assert BuiltMap(Enter(s, NO_KEYWORD), e, q) by {
      MapBuilds(Enter(s, NO_KEYWORD), ms);
    }
    EvalUserContext(ms, s.ctx, m);
    NextUserContext(q);
    UserContextSets(s, e, q, m);
  }

  /** The entries that are not null are the same in the heap and in the tree. */
  lemma NotNullReads(h: seq<Node>, e: map<string, Ref>, m: map<string, Tree>, lo: nat)
    requires ReadsMap(h, e, m, lo)
    ensures ReadsMap(h, NotNullRefs(h, e), NotNull(m), lo)
  {
    forall k | k in m ensures k in NotNullRefs(h, e) <==> k in NotNull(m) {
      assert Reads(h, e[k], m[k], lo);
    }
    assert NotNullRefs(h, e).Keys == NotNull(m).Keys;
  }

  /** The heap with a new comment and a new user context of that comment and older entries. */
  function Noted(h: seq<Node>, text: string, e: map<string, Ref>): seq<Node> {
    h + [ScalarNode(Text(text))] + [MapNode(map[COMMENT := |h|] + e)]
  }

  function Note(text: string, m: map<string, Tree>): map<string, Tree> {
    map[COMMENT := Leaf(Text(text))] + m
  }

  lemma NoteReads(h: seq<Node>, text: string, e: map<string, Ref>, m: map<string, Tree>, lo: nat)
    requires ReadsMap(h, e, m, lo) && lo <= |h| && COMMENT !in m
    ensures Reads(Noted(h, text, e), |h| + 1, Obj(Note(text, m)), lo)
  {
    var g, n := Noted(h, text, e), Note(text, m);
    MapFrame(h, g, e, m, lo, lo);
    assert g[|h| + 1].entries.Keys == n.Keys;
    forall k | k in n ensures Reads(g, g[|h| + 1].entries[k], n[k], lo) {
      if k == COMMENT {
        assert n[k] == Leaf(Text(text)) && g[|h| + 1].entries[k] == |h|;
      }
    }
  }

  /** The new user context is set. */
  lemma NoteSets(s: State, text: string, e: map<string, Ref>, n: map<string, Tree>, m: map<string, Tree>)
    requires MapAt(s, m) && ReadsMap(s.heap, e, n, Top(s) + 1) && COMMENT !in n
    ensures OnMap(s.(heap := Noted(s.heap, text, e)))
    ensures FilledMap(s, Ok(m[USER_CONTEXT := Obj(Note(text, n))]),
                      Ok(Set(s.(heap := Noted(s.heap, text, e)), USER_CONTEXT, |s.heap| + 1)))
  {
    NoteReads(s.heap, text, e, n, Top(s) + 1);
    var u := s.(heap := Noted(s.heap, text, e), values := s.values + [|s.heap| + 1]);
    assert DropValue(u).values == s.values;
    PutLow(s, u, m, USER_CONTEXT, Obj(Note(text, n)));
  }

  /** What the action makes of the open map, without and with a user context there. */
  lemma CommentStepAlone(s: State, text: string)
    requires OnMap(s) && USER_CONTEXT !in Entries(s)
    ensures OnMap(s.(heap := Noted(s.heap, text, map[])))
    ensures CommentStep(s, text) == Ok(Set(s.(heap := Noted(s.heap, text, map[])), USER_CONTEXT, |s.heap| + 1))
  {
    assert map[COMMENT := |s.heap|] + map[] == map[COMMENT := |s.heap|];
  }

  lemma CommentStepMerges(s: State, text: string, old_: Ref)
    requires OnMap(s) && USER_CONTEXT in Entries(s) && old_ == Entries(s)[USER_CONTEXT]
    requires old_ < |s.heap| && s.heap[old_].MapNode? && COMMENT !in s.heap[old_].entries
    ensures var e := NotNullRefs(s.heap, s.heap[old_].entries);
      && OnMap(s.(heap := Noted(s.heap, text, e)))
      && CommentStep(s, text) == Ok(Set(s.(heap := Noted(s.heap, text, e)), USER_CONTEXT, |s.heap| + 1))
  {
  }

  lemma CommentAlone(s: State, text: string, m: map<string, Tree>)
    requires MapAt(s, m) && USER_CONTEXT !in m
    ensures FilledMap(s, WithComment(m, text), CommentStep(s, text))
  {
    CommentStepAlone(s, text);
    NoteSets(s, text, map[], map[], m);
    assert Note(text, map[]) == map[COMMENT := Leaf(Text(text))];
  }

  lemma CommentMerges(s: State, text: string, m: map<string, Tree>)
    requires MapAt(s, m) && USER_CONTEXT in m && m[USER_CONTEXT].Obj? && COMMENT !in m[USER_CONTEXT].entries
    ensures FilledMap(s, WithComment(m, text), CommentStep(s, text))
  {
    var old_ := Entries(s)[USER_CONTEXT];
    assert Reads(s.heap, old_, m[USER_CONTEXT], Top(s) + 1);
    var e, n := s.heap[old_].entries, m[USER_CONTEXT].entries;
    NotNullReads(s.heap, e, n, Top(s) + 1);
    CommentStepMerges(s, text, old_);
    NoteSets(s, text, NotNullRefs(s.heap, e), NotNull(n), m);
  }

  lemma CommentFails(s: State, text: string, m: map<string, Tree>)
    requires MapAt(s, m) && USER_CONTEXT in m && (!m[USER_CONTEXT].Obj? || COMMENT in m[USER_CONTEXT].entries)
    ensures FilledMap(s, WithComment(m, text), CommentStep(s, text))
  {
    assert Reads(s.heap, Entries(s)[USER_CONTEXT], m[USER_CONTEXT], Top(s) + 1);
  }

  lemma CommentSets(s: State, text: string, m: map<string, Tree>)
    requires MapAt(s, m)
    ensures FilledMap(s, WithComment(m, text), CommentStep(s, text))
  {
    if USER_CONTEXT !in m {
      CommentAlone(s, text, m);
    } else if m[USER_CONTEXT].Obj? && COMMENT !in m[USER_CONTEXT].entries {
      CommentMerges(s, text, m);
    } else {
      CommentFails(s, text, m);
    }
  }

  lemma EntersFreely(s: State)
    ensures Step(s, EnterKey([], NO_KEYWORD)) == Ok(Enter(s, NO_KEYWORD))
  {
  }

  lemma NextComment(t: State, text: string)
    ensures Next(Ok(t), SetComment(text)) == ThenLeave(CommentStep(t, text))
  {
  }

  lemma CommentRuns(s: State, text: string)
    ensures Run(s, OfParam(Comment(text))) == ThenLeave(CommentStep(Enter(s, NO_KEYWORD), text))
  {
    EntersFreely(s);
    RunTwo(s, EnterKey([], NO_KEYWORD), SetComment(text));
    NextComment(Enter(s, NO_KEYWORD), text);
  }

  lemma CommentFills(s: State, text: string, m: map<string, Tree>)
    requires MapAt(s, m)
    ensures FilledMap(s, WithComment(m, text), ThenLeave(CommentStep(Enter(s, NO_KEYWORD), text)))
  {
    CommentSets(Enter(s, NO_KEYWORD), text, m);
    LeaveAfter(s, NO_KEYWORD, WithComment(m, text), CommentStep(Enter(s, NO_KEYWORD), text));
  }

  // ----- lists of maps -----

  /** A map added to the open list and opened itself. */
  function Added(s: State): State
    requires OnList(s)
  {
    Push(Add(Alloc(s, MapNode(map[])), |s.heap|), |s.heap|)
  }

  lemma AddedReads(s: State, ts: seq<Tree>, h: seq<Node>, v: Tree)
    requires ListAt(s, ts) && Keeps(Added(s).heap, h, |s.heap|) && Reads(h, |s.heap|, v, |s.heap|)
    ensures Keeps(s.heap, h, Top(s)) && h[Top(s)] == ListNode(s.heap[Top(s)].items + [|s.heap|])
    ensures ReadsList(h, h[Top(s)].items, ts + [v], Top(s) + 1)
  {
    var p := Top(s);
    assert h[p] == Added(s).heap[p];
    ListFrame(s.heap, h, s.heap[p].items, ts, p + 1, p + 1);
    ReadsFrame(h, h, |s.heap|, v, |s.heap|, p + 1);
  }

  lemma AddedFills(s: State, ts: seq<Tree>, w: State, v: Tree)
    requires ListAt(s, ts) && Balanced(s, w) && Keeps(Added(s).heap, w.heap, |s.heap|)
    requires Reads(w.heap, |s.heap|, v, |s.heap|)
    ensures FilledList(s, Ok(ts + [v]), Ok(w))
  {
    AddedReads(s, ts, w.heap, v);
  }

  /** A map is closed if it has the keys that its production requires. */
  lemma CloseStep(u: State, m: map<string, Tree>, required: seq<string>)
    requires MapAt(u, m)
    ensures Step(u, EndItem(required)) ==
      var missing := FirstMissing(required, m.Keys);
      if missing.Some? then Err(Missing(missing.value, u.ctx)) else Ok(Pop(u))
  {
  }

  lemma ItemMapEnds(s: State, e: Result<map<string, Tree>>, q: Result<State>, required: seq<string>, ts: seq<Tree>)
    requires ListAt(s, ts) && FilledMap(Added(s), e, q)
    ensures FilledList(s, WithItem(ts, AsObj(Complete(e, s.ctx, required))), Next(q, EndItem(required)))
  {
    if e.Ok? {
      var u := q.value;
      CloseStep(u, e.value, required);
      assert Pop(u).stack == s.stack;
      MapFrame(u.heap, u.heap, Entries(u), e.value, |s.heap| + 1, |s.heap|);
      AddedFills(s, ts, Pop(u), Obj(e.value));
    }
  }

  lemma GroupRuns(s: State, ps: List<Param>, required: seq<string>, rest: List<Group>)
    requires OnList(s)
    ensures Run(s, OfGroups(Cons(Group(ps, required), rest))) ==
      Then(Next(Run(Added(s), OfParams(ps)), EndItem(required)), OfGroups(rest))
  {
    RunConcat(s, [ItemMap] + OfParams(ps) + [EndItem(required)], OfGroups(rest));
    RunBracket(s, ItemMap, OfParams(ps), EndItem(required));
  }

  lemma GroupMeans(c: Context, ps: List<Param>, required: seq<string>, rest: List<Group>, ts: seq<Tree>)
    ensures EvalGroups(Cons(Group(ps, required), rest), c, ts) ==
      var f := WithItem(ts, AsObj(Complete(EvalParams(ps, c, map[]), c, required)));
      if f.Err? then f else EvalGroups(rest, c, f.value)
  {
  }

  /** One map of a list, and then the others. */
  lemma GroupThen(s: State, ps: List<Param>, required: seq<string>, rest: List<Group>, ts: seq<Tree>,
                  f: Result<seq<Tree>>, r: Result<State>)
    requires OnList(s) && FilledList(s, f, r)
    requires f == WithItem(ts, AsObj(Complete(EvalParams(ps, s.ctx, map[]), s.ctx, required)))
    requires r == Next(Run(Added(s), OfParams(ps)), EndItem(required))
    requires f.Ok? ==> FilledList(r.value, EvalGroups(rest, s.ctx, f.value), Run(r.value, OfGroups(rest)))
    ensures var gs := Cons(Group(ps, required), rest);
      FilledList(s, EvalGroups(gs, s.ctx, ts), Run(s, OfGroups(gs)))
  {
    GroupRuns(s, ps, required, rest);
    GroupMeans(s.ctx, ps, required, rest, ts);
    if f.Ok? {
      FillListOn(s, f, r, EvalGroups(rest, s.ctx, f.value), Run(r.value, OfGroups(rest)));
    }
  }

  // ----- every parameter -----

  lemma SimpleFills(s: State, p: Param, m: map<string, Tree>)
    requires MapAt(s, m) && !p.MapParam? && !p.ListParam?
    ensures FilledMap(s, EvalParam(p, s.ctx, m), Run(s, OfParam(p)))
  {
    match p
    case ScalarParam(_, _, _, _, _) =>
      ScalarRuns(s, p);
      ScalarFills(s, p, m);
    case PlainParam(_, _, _) => PlainFills(s, p, m);
    case ValueParam(key, c, v) => ValueFills(s, key, c, v, m);
    case UserContext(ms) =>
      UserContextRuns(s, ms);
      UserContextFills(s, ms, m);
    case Comment(text) =>
      CommentRuns(s, text);
      CommentFills(s, text, m);
    case UnknownParam(key) => RunOne(s, Complain(key));
    case ParamComma => RunOne(s, Warn);
  }

  lemma {:induction false} ParamFills(s: State, p: Param, m: map<string, Tree>)
    requires MapAt(s, m)
    ensures FilledMap(s, EvalParam(p, s.ctx, m), Run(s, OfParam(p)))
    decreases p, 0
  {
    if p.MapParam? {
      if p.key !in m {
        ParamsFill(Opened(s, p.key, p.within, MapNode(map[])), p.params, map[]);
      }
      MapParamFills(s, p, m);
    } else if p.ListParam? {
      if p.key !in m {
        GroupsFill(Opened(s, p.key, p.within, ListNode([])), p.groups, []);
      }
      ListParamFills(s, p, m);
    } else {
      SimpleFills(s, p, m);
    }
  }

  lemma {:induction false} ParamsFill(s: State, ps: List<Param>, m: map<string, Tree>)
    requires MapAt(s, m)
    ensures FilledMap(s, EvalParams(ps, s.ctx, m), Run(s, OfParams(ps)))
    decreases ps, 0
  {
    match ps
    case Nil =>
    case Cons(p, rest) =>
      RunConcat(s, OfParam(p), OfParams(rest));
      ParamFills(s, p, m);
      var e := EvalParam(p, s.ctx, m);
      if e.Ok? {
        var u := Run(s, OfParam(p)).value;
        ParamsFill(u, rest, e.value);
        FillOn(s, e, Run(s, OfParam(p)), EvalParams(rest, s.ctx, e.value), Run(u, OfParams(rest)));
      }
  }

  lemma {:induction false} GroupsFill(s: State, gs: List<Group>, ts: seq<Tree>)
    requires ListAt(s, ts)
    ensures FilledList(s, EvalGroups(gs, s.ctx, ts), Run(s, OfGroups(gs)))
    decreases gs, 0
  {
    match gs
    case Nil =>
    case Cons(GroupComma, rest) =>
      assert ([Warn] + OfGroups(rest))[1..] == OfGroups(rest);
      GroupsFill(s, rest, ts);
    case Cons(Group(ps, required), rest) =>
      ParamsFill(Added(s), ps, map[]);
      var e, q := EvalParams(ps, s.ctx, map[]), Run(Added(s), OfParams(ps));
      ItemMapEnds(s, e, q, required, ts);
      var f, r := WithItem(ts, AsObj(Complete(e, s.ctx, required))), Next(q, EndItem(required));
      if f.Ok? {
        GroupsFill(r.value, rest, f.value);
      }
      GroupThen(s, ps, required, rest, ts, f, r);
  }

  // ----- whole derivations -----

  /** What a finished parse leaves: the tree as the one element, and no open context. */
  ghost predicate Finished(e: Result<Tree>, r: Result<State>) {
    if e.Err? then r == Err(e.error)
    else
      && r.Ok? && |r.value.stack| == 1 && r.value.cstack == [] && r.value.values == []
      && Reads(r.value.heap, r.value.stack[0], e.value, 0)
  }

  lemma JsonParses(v: Json)
    ensures Finished(Eval(v, NO_KEYWORD), Run(INITIAL, OfStart(StartJson(v))))
  {
    RunBracket(INITIAL, Begin(NO_KEYWORD), OfJson(v), PushBack);
    JsonBuilds(INITIAL, v);
  }

  lemma BeginRuns(c: Context, xs: seq<Action>)
    ensures Run(INITIAL, [Begin(c)] + xs) == Run(INITIAL.(ctx := c), xs)
  {
    assert ([Begin(c)] + xs)[1..] == xs;
  }

  lemma MapRuns(c: Context, ps: List<Param>, required: seq<string>)
    ensures Run(INITIAL, OfStart(StartMap(c, ps, required))) ==
      Next(Run(Push(Alloc(INITIAL.(ctx := c), MapNode(map[])), 0), OfParams(ps)), Require(required))
  {
    BeginRuns(c, [OpenMap] + OfParams(ps) + [Require(required)]);
    RunBracket(INITIAL.(ctx := c), OpenMap, OfParams(ps), Require(required));
  }

  lemma RequireStep(u: State, m: map<string, Tree>, required: seq<string>)
    requires MapAt(u, m)
    ensures Step(u, Require(required)) ==
      var missing := FirstMissing(required, m.Keys);
      if missing.Some? then Err(Missing(missing.value, u.ctx)) else Ok(u)
  {
  }

  lemma MapEnds(c: Context, e: Result<map<string, Tree>>, q: Result<State>, required: seq<string>)
    requires FilledMap(Push(Alloc(INITIAL.(ctx := c), MapNode(map[])), 0), e, q)
    ensures Finished(AsObj(Complete(e, c, required)), Next(q, Require(required)))
  {
    if e.Ok? {
      var u := q.value;
      RequireStep(u, e.value, required);
      MapFrame(u.heap, u.heap, Entries(u), e.value, 1, 0);
    }
  }

  lemma MapParses(c: Context, ps: List<Param>, required: seq<string>)
    ensures Finished(AsObj(EvalGroup(ps, c, required)), Run(INITIAL, OfStart(StartMap(c, ps, required))))
  {
    var t := Push(Alloc(INITIAL.(ctx := c), MapNode(map[])), 0);
    MapRuns(c, ps, required);
    ParamsFill(t, ps, map[]);
    MapEnds(c, EvalParams(ps, c, map[]), Run(t, OfParams(ps)), required);
  }

  lemma ListEnds(c: Context, e: Result<seq<Tree>>, q: Result<State>)
    requires FilledList(Push(Alloc(INITIAL.(ctx := c), ListNode([])), 0), e, q)
    ensures Finished(AsArr(e), q)
  {
    if e.Ok? {
      var u := q.value;
      ListFrame(u.heap, u.heap, u.heap[0].items, e.value, 1, 0);
    }
  }

  lemma ListParses(c: Context, gs: List<Group>)
    ensures Finished(AsArr(EvalGroups(gs, c, [])), Run(INITIAL, OfStart(StartList(c, gs))))
  {
    var s := INITIAL.(ctx := c);
    var t := Push(Alloc(s, ListNode([])), 0);
    BeginRuns(c, [OpenList] + OfGroups(gs));
    assert ([OpenList] + OfGroups(gs))[1..] == OfGroups(gs);
    assert Run(s, [OpenList] + OfGroups(gs)) == Run(t, OfGroups(gs));
    GroupsFill(t, gs, []);
    ListEnds(c, EvalGroups(gs, c, []), Run(t, OfGroups(gs)));
  }

  /** The actions of any derivation build exactly its meaning as the one remaining element, or stop
      at exactly its first error. */
  lemma ParseIsEvaluation(d: Start)
    ensures Finished(EvalStart(d), Run(INITIAL, OfStart(d)))
  {
    match d
    case StartJson(v) => JsonParses(v);
    case StartMap(c, ps, required) => MapParses(c, ps, required);
    case StartList(c, gs) => ListParses(c, gs);
  }

  // ----- which errors there can be -----

  /** An error of the configuration, and not of the parser's own stacks. */
  predicate InConfig(e: Error) { e != UnbalancedContext && e != EmptyStack }

  lemma {:induction false} JsonErrors(v: Json, c: Context)
    ensures Eval(v, c).Err? ==> InConfig(Eval(v, c).error)
    decreases v
  {
    match v
    case Atom(_) =>
    case JMap(ms) => MemberErrors(ms, c, map[]);
    case JList(es) => ItemErrors(es, c, []);
  }

  lemma {:induction false} MemberErrors(ms: List<Member>, c: Context, m: map<string, Tree>)
    ensures EvalMembers(ms, c, m).Err? ==> InConfig(EvalMembers(ms, c, m).error)
    decreases ms
  {
    match ms
    case Nil =>
    case Cons(MemberComma, rest) => MemberErrors(rest, c, m);
    case Cons(Entry(k, v), rest) =>
      JsonErrors(v, c);
      if Eval(v, c).Ok? && k !in m {
        MemberErrors(rest, c, m[k := Eval(v, c).value]);
      }
  }

  lemma {:induction false} ItemErrors(es: List<Item>, c: Context, ts: seq<Tree>)
    ensures EvalItems(es, c, ts).Err? ==> InConfig(EvalItems(es, c, ts).error)
    decreases es
  {
    match es
    case Nil =>
    case Cons(ItemComma, rest) => ItemErrors(rest, c, ts);
    case Cons(Element(v), rest) =>
      JsonErrors(v, c);
      if Eval(v, c).Ok? {
        ItemErrors(rest, c, ts + [Eval(v, c).value]);
      }
  }

  lemma {:induction false} ParamErrors(p: Param, c: Context, m: map<string, Tree>)
    ensures EvalParam(p, c, m).Err? ==> InConfig(EvalParam(p, c, m).error)
    decreases p
  {
    match p
    case ValueParam(_, within, v) => JsonErrors(v, within);
    case MapParam(_, within, params, _) => ParamsErrors(params, within, map[]);
    case ListParam(_, within, groups) => GroupsErrors(groups, within, []);
    case UserContext(ms) => MemberErrors(ms, NO_KEYWORD, map[]);
    case _ =>
  }

  lemma {:induction false} ParamsErrors(ps: List<Param>, c: Context, m: map<string, Tree>)
    ensures EvalParams(ps, c, m).Err? ==> InConfig(EvalParams(ps, c, m).error)
    decreases ps
  {
    match ps
    case Nil =>
    case Cons(p, rest) =>
      ParamErrors(p, c, m);
      if EvalParam(p, c, m).Ok? {
        ParamsErrors(rest, c, EvalParam(p, c, m).value);
      }
  }

  lemma {:induction false} GroupsErrors(gs: List<Group>, c: Context, ts: seq<Tree>)
    ensures EvalGroups(gs, c, ts).Err? ==> InConfig(EvalGroups(gs, c, ts).error)
    decreases gs
  {
    match gs
    case Nil =>
    case Cons(GroupComma, rest) => GroupsErrors(rest, c, ts);
    case Cons(Group(ps, required), rest) =>
      ParamsErrors(ps, c, map[]);
      var f := WithItem(ts, AsObj(Complete(EvalParams(ps, c, map[]), c, required)));
      GroupMeans(c, ps, required, rest, ts);
      if f.Ok? {
        GroupsErrors(rest, c, f.value);
      }
  }

  /** No derivation ever makes an action find a stack empty: leaving a context always has one to go
      back to, and there is always an element to set, add to, or take. */
  lemma NeverUnderflows(d: Start)
    ensures Run(INITIAL, OfStart(d)) != Err(UnbalancedContext)
    ensures Run(INITIAL, OfStart(d)) != Err(EmptyStack)
  {
    ParseIsEvaluation(d);
    match d
    case StartJson(v) => JsonErrors(v, NO_KEYWORD);
    case StartMap(c, ps, _) => ParamsErrors(ps, c, map[]);
    case StartList(c, gs) => GroupsErrors(gs, c, []);
  }
}
