/**
The parser's actions build, on their stacks and in place, the tree that the
recursive meaning of the configuration gives, and stop at the same error.
*/
module ParserRefinement {
  import opened Common
  import opened ConfigSyntax
  import opened ParserActions

  // ----- trees in the heap -----

  /** The element at r is the tree t, and all of it lies at lo or above. */
  ghost predicate Reads(h: seq<Node>, r: Ref, t: Tree, lo: nat)
    decreases t
  {
    && lo <= r < |h|
    && match t
       case Leaf(a) => h[r] == ScalarNode(a)
       case Obj(m) =>
         && h[r].MapNode? && h[r].entries.Keys == m.Keys
         && forall k :: k in m ==> Reads(h, h[r].entries[k], m[k], lo)
       case Arr(ts) =>
         && h[r].ListNode? && |h[r].items| == |ts|
         && forall i :: 0 <= i < |ts| ==> Reads(h, h[r].items[i], ts[i], lo)
  }

  /** A tree is not affected by changes below it or by new elements. */
  lemma {:induction false} ReadsFrame(h: seq<Node>, g: seq<Node>, r: Ref, t: Tree, lo: nat, to: nat)
    requires Reads(h, r, t, lo) && to <= lo && |h| <= |g|
    requires forall i :: lo <= i < |h| ==> g[i] == h[i]
    ensures Reads(g, r, t, to)
    decreases t
  {
    match t
    case Leaf(_) =>
    case Obj(m) =>
      forall k | k in m ensures Reads(g, g[r].entries[k], m[k], to) {
        ReadsFrame(h, g, h[r].entries[k], m[k], lo, to);
      }
    case Arr(ts) =>
      forall i | 0 <= i < |ts| ensures Reads(g, g[r].items[i], ts[i], to) {
        ReadsFrame(h, g, h[r].items[i], ts[i], lo, to);
      }
  }

  /** An element is one tree only. */
  lemma {:induction false} ReadsUnique(h: seq<Node>, r: Ref, t: Tree, u: Tree, lo: nat)
    requires Reads(h, r, t, lo) && Reads(h, r, u, lo)
    ensures t == u
    decreases t
  {
    match t
    case Leaf(_) =>
    case Obj(m) =>
      forall k | k in m ensures m[k] == u.entries[k] {
        ReadsUnique(h, h[r].entries[k], m[k], u.entries[k], lo);
      }
      assert m == u.entries;
    case Arr(ts) =>
      forall i | 0 <= i < |ts| ensures ts[i] == u.items[i] {
        ReadsUnique(h, h[r].items[i], ts[i], u.items[i], lo);
      }
      assert ts == u.items;
  }

  ghost predicate ReadsMap(h: seq<Node>, e: map<string, Ref>, m: map<string, Tree>, lo: nat) {
    e.Keys == m.Keys && forall k :: k in m ==> Reads(h, e[k], m[k], lo)
  }

  ghost predicate ReadsList(h: seq<Node>, e: seq<Ref>, ts: seq<Tree>, lo: nat) {
    |e| == |ts| && forall i :: 0 <= i < |ts| ==> Reads(h, e[i], ts[i], lo)
  }

  lemma MapFrame(h: seq<Node>, g: seq<Node>, e: map<string, Ref>, m: map<string, Tree>, lo: nat, to: nat)
    requires ReadsMap(h, e, m, lo) && to <= lo && |h| <= |g|
    requires forall i :: lo <= i < |h| ==> g[i] == h[i]
    ensures ReadsMap(g, e, m, to)
  {
    forall k | k in m ensures Reads(g, e[k], m[k], to) {
      ReadsFrame(h, g, e[k], m[k], lo, to);
    }
  }

  lemma ListFrame(h: seq<Node>, g: seq<Node>, e: seq<Ref>, ts: seq<Tree>, lo: nat, to: nat)
    requires ReadsList(h, e, ts, lo) && to <= lo && |h| <= |g|
    requires forall i :: lo <= i < |h| ==> g[i] == h[i]
    ensures ReadsList(g, e, ts, to)
  {
    forall i | 0 <= i < |ts| ensures Reads(g, e[i], ts[i], to) {
      ReadsFrame(h, g, e[i], ts[i], lo, to);
    }
  }

  // ----- what the actions of each part of a derivation do -----

  /** Both stacks of the context, and the value stack, are as before. */
  ghost predicate Balanced(s: State, t: State) {
    t.stack == s.stack && t.ctx == s.ctx && t.cstack == s.cstack && t.values == s.values
  }

  /** Of the elements that were there only p may have changed. */
  ghost predicate Keeps(h: seq<Node>, g: seq<Node>, p: Ref) {
    |h| <= |g| && forall i :: 0 <= i < |h| && i != p ==> g[i] == h[i]
  }

  /** The open element is a map that reads m, all of it above the element itself. */
  ghost predicate MapAt(s: State, m: map<string, Tree>) {
    OnMap(s) && ReadsMap(s.heap, Entries(s), m, Top(s) + 1)
  }

  ghost predicate ListAt(s: State, ts: seq<Tree>) {
    OnList(s) && ReadsList(s.heap, s.heap[Top(s)].items, ts, Top(s) + 1)
  }

  /** A value was built on the value stack; nothing that was there has changed. */
  ghost predicate Built(s: State, e: Result<Tree>, r: Result<State>) {
    if e.Err? then r == Err(e.error)
    else
      && r.Ok? && r.value.values != []
      && Balanced(s, DropValue(r.value))
      && s.heap <= r.value.heap
      && Reads(r.value.heap, LastValue(r.value), e.value, |s.heap|)
  }

  /** The open map was filled; nothing else that was there has changed. */
  ghost predicate FilledMap(s: State, e: Result<map<string, Tree>>, r: Result<State>)
    requires s.stack != []
  {
    if e.Err? then r == Err(e.error)
    else r.Ok? && Balanced(s, r.value) && Keeps(s.heap, r.value.heap, Top(s)) && MapAt(r.value, e.value)
  }

  ghost predicate FilledList(s: State, e: Result<seq<Tree>>, r: Result<State>)
    requires s.stack != []
  {
    if e.Err? then r == Err(e.error)
    else r.Ok? && Balanced(s, r.value) && Keeps(s.heap, r.value.heap, Top(s)) && ListAt(r.value, e.value)
  }

  function Next(r: Result<State>, a: Action): Result<State> {
    if r.Err? then r else Step(r.value, a)
  }

  function Then(r: Result<State>, xs: seq<Action>): Result<State> {
    if r.Err? then r else Run(r.value, xs)
  }

  lemma {:induction false} RunConcat(s: State, xs: seq<Action>, ys: seq<Action>)
    ensures Run(s, xs + ys) == Then(Run(s, xs), ys)
    decreases |xs|
  {
    if xs == [] {
      assert xs + ys == ys;
    } else {
      assert (xs + ys)[1..] == xs[1..] + ys;
      var r := Step(s, xs[0]);
      if r.Ok? {
        RunConcat(r.value, xs[1..], ys);
      }
    }
  }

  lemma RunTwo(s: State, a: Action, b: Action)
    ensures Run(s, [a, b]) == Next(Step(s, a), b)
  {
    assert [a, b][1..] == [b];
    var r := Step(s, a);
    if r.Ok? {
      RunOne(r.value, b);
    }
  }

  /** Some actions, then one, then some more. */
  lemma RunAround(s: State, xs: seq<Action>, a: Action, ys: seq<Action>)
    ensures Run(s, xs + [a] + ys) == Then(Next(Run(s, xs), a), ys)
  {
    RunConcat(s, xs + [a], ys);
    RunConcat(s, xs, [a]);
    var r := Run(s, xs);
    if r.Ok? {
      RunOne(r.value, a);
    }
  }

  lemma RunOne(s: State, a: Action)
    ensures Run(s, [a]) == Step(s, a)
  {
    assert [a][1..] == [];
    var r := Step(s, a);
    if r.Ok? {
      assert Run(r.value, []) == Ok(r.value) == r;
    }
  }

  /** One action, some more, and a last one. */
  lemma RunBracket(s: State, a: Action, xs: seq<Action>, b: Action)
    ensures Run(s, [a] + xs + [b]) ==
      Next(Then(Step(s, a), xs), b)
  {
    RunConcat(s, [a] + xs, [b]);
    assert ([a] + xs)[1..] == xs;
    var r := Run(s, [a] + xs);
    if r.Ok? {
      RunOne(r.value, b);
    }
  }

  /** A map filled, and then filled further. */
  lemma FillOn(s: State, e: Result<map<string, Tree>>, q: Result<State>, f: Result<map<string, Tree>>, r: Result<State>)
    requires s.stack != [] && FilledMap(s, e, q)
    requires e.Ok? ==> FilledMap(q.value, f, r)
    ensures FilledMap(s, if e.Err? then e else f, if q.Err? then q else r)
  {
  }

  lemma FillListOn(s: State, e: Result<seq<Tree>>, q: Result<State>, f: Result<seq<Tree>>, r: Result<State>)
    requires s.stack != [] && FilledList(s, e, q)
    requires e.Ok? ==> FilledList(q.value, f, r)
    ensures FilledList(s, if e.Err? then e else f, if q.Err? then q else r)
  {
  }

  lemma OneTaken(key: string, taken: set<string>)
    ensures FirstTaken([key], taken) == if key in taken then Some(key) else None
  {
    assert [key][1..] == [];
  }

  /** A map was built at the first free place, and all its entries lie above it. */
  ghost predicate BuiltMap(s: State, e: Result<map<string, Tree>>, r: Result<State>) {
    if e.Err? then r == Err(e.error)
    else
      && r.Ok? && r.value.values != []
      && Balanced(s, DropValue(r.value))
      && s.heap < r.value.heap && LastValue(r.value) == |s.heap|
      && r.value.heap[|s.heap|].MapNode?
      && ReadsMap(r.value.heap, r.value.heap[|s.heap|].entries, e.value, |s.heap| + 1)
  }

  lemma BuiltMapIsBuilt(s: State, e: Result<map<string, Tree>>, r: Result<State>)
    requires BuiltMap(s, e, r)
    ensures Built(s, AsObj(e), r)
  {
    if e.Ok? {
      var h := r.value.heap;
      MapFrame(h, h, h[|s.heap|].entries, e.value, |s.heap| + 1, |s.heap|);
    }
  }

  lemma TakeMap(s: State, e: Result<map<string, Tree>>, q: Result<State>)
    requires FilledMap(Push(Alloc(s, MapNode(map[])), |s.heap|), e, q)
    ensures BuiltMap(s, e, Next(q, TakeTop))
  {
    if e.Ok? {
      var t := Push(Alloc(s, MapNode(map[])), |s.heap|);
      assert Pop(t).stack == s.stack;
      var r := Next(q, TakeTop).value;
      assert DropValue(r).values == s.values;
      assert forall i :: 0 <= i < |s.heap| ==> r.heap[i] == t.heap[i] == s.heap[i];
    }
  }

  lemma TakeList(s: State, e: Result<seq<Tree>>, q: Result<State>)
    requires FilledList(Push(Alloc(s, ListNode([])), |s.heap|), e, q)
    ensures Built(s, AsArr(e), Next(q, TakeTop))
  {
    if e.Ok? {
      var t := Push(Alloc(s, ListNode([])), |s.heap|);
      assert Pop(t).stack == s.stack;
      var r := Next(q, TakeTop).value;
      assert DropValue(r).values == s.values;
      assert forall i :: 0 <= i < |s.heap| ==> r.heap[i] == t.heap[i] == s.heap[i];
      ListFrame(r.heap, r.heap, r.heap[|s.heap|].items, e.value, |s.heap| + 1, |s.heap|);
    }
  }

  lemma {:induction false} MapBuilds(s: State, ms: List<Member>)
    ensures BuiltMap(s, EvalMembers(ms, s.ctx, map[]), Run(s, OfJson(JMap(ms))))
    decreases ms, 1
  {
    var t := Push(Alloc(s, MapNode(map[])), |s.heap|);
    MembersFill(t, ms, map[]);
    RunBracket(s, OpenMap, OfMembers(ms), TakeTop);
    TakeMap(s, EvalMembers(ms, s.ctx, map[]), Run(t, OfMembers(ms)));
  }

  /** Generic JSON: the actions build what it means and leave all stacks as they were. */
  lemma {:induction false} JsonBuilds(s: State, v: Json)
    ensures Built(s, Eval(v, s.ctx), Run(s, OfJson(v)))
    decreases v, 0
  {
    match v
    case Atom(a) =>
      RunOne(s, NewScalar(a));
      assert (s.values + [|s.heap|])[..|s.values|] == s.values;
    case JMap(ms) =>
      MapBuilds(s, ms);
      BuiltMapIsBuilt(s, EvalMembers(ms, s.ctx, map[]), Run(s, OfJson(v)));
    case JList(es) =>
      var t := Push(Alloc(s, ListNode([])), |s.heap|);
      ItemsFill(t, es, []);
      RunBracket(s, OpenList, OfItems(es), TakeTop);
      TakeList(s, EvalItems(es, s.ctx, []), Run(t, OfItems(es)));
  }

  /** An entry in the map at p: nothing above p is affected. */
  lemma PutReads(h: seq<Node>, g: seq<Node>, p: Ref, m: map<string, Tree>, key: string, r: Ref, v: Tree)
    requires p < |h| && h <= g && h[p].MapNode? && ReadsMap(h, h[p].entries, m, p + 1) && Reads(g, r, v, p + 1)
    ensures var f := g[p := MapNode(h[p].entries[key := r])];
      Keeps(h, f, p) && ReadsMap(f, f[p].entries, m[key := v], p + 1)
  {
    var f := g[p := MapNode(h[p].entries[key := r])];
    MapFrame(h, f, h[p].entries, m, p + 1, p + 1);
    ReadsFrame(g, f, r, v, p + 1, p + 1);
  }

  /** The value on the value stack becomes an entry of the open map. */
  lemma PutLow(s: State, t: State, m: map<string, Tree>, key: string, v: Tree)
    requires MapAt(s, m) && t.values != [] && Balanced(s, DropValue(t)) && s.heap <= t.heap
    requires Reads(t.heap, LastValue(t), v, Top(s) + 1)
    ensures OnMap(t) && Entries(t).Keys == m.Keys
    ensures FilledMap(s, Ok(m[key := v]), Ok(DropValue(Set(t, key, LastValue(t)))))
  {
    PutReads(s.heap, t.heap, Top(s), m, key, LastValue(t), v);
    assert Entries(t) == Entries(s);
  }

  lemma PutFills(s: State, t: State, m: map<string, Tree>, key: string, v: Tree)
    requires MapAt(s, m) && t.values != [] && Balanced(s, DropValue(t)) && s.heap <= t.heap
    requires Reads(t.heap, LastValue(t), v, |s.heap|)
    ensures OnMap(t) && Entries(t).Keys == m.Keys
    ensures FilledMap(s, Ok(m[key := v]), Ok(DropValue(Set(t, key, LastValue(t)))))
  {
    ReadsFrame(t.heap, t.heap, LastValue(t), v, |s.heap|, Top(s) + 1);
    PutLow(s, t, m, key, v);
  }

  /** One entry of a generic map. */
  function WithEntry(m: map<string, Tree>, k: string, c: Context, e: Result<Tree>): Result<map<string, Tree>> {
    if e.Err? then Err(e.error) else if k in m then Err(Duplicate(k, c)) else Ok(m[k := e.value])
  }

  lemma EntryFills(s: State, k: string, e: Result<Tree>, q: Result<State>, m: map<string, Tree>)
    requires MapAt(s, m) && Built(s, e, q)
    ensures FilledMap(s, WithEntry(m, k, s.ctx, e), Next(q, Put(k)))
  {
    if e.Ok? {
      PutFills(s, q.value, m, k, e.value);
      OneTaken(k, m.Keys);
    }
  }

  lemma {:induction false} MembersFill(s: State, ms: List<Member>, m: map<string, Tree>)
    requires MapAt(s, m)
    ensures FilledMap(s, EvalMembers(ms, s.ctx, m), Run(s, OfMembers(ms)))
    decreases ms, 0
  {
    match ms
    case Nil =>
    case Cons(MemberComma, rest) =>
      assert ([Warn] + OfMembers(rest))[1..] == OfMembers(rest);
      MembersFill(s, rest, m);
    case Cons(Entry(k, v), rest) =>
      RunAround(s, OfJson(v), Put(k), OfMembers(rest));
      JsonBuilds(s, v);
      var e, r := WithEntry(m, k, s.ctx, Eval(v, s.ctx)), Next(Run(s, OfJson(v)), Put(k));
      EntryFills(s, k, Eval(v, s.ctx), Run(s, OfJson(v)), m);
      if e.Ok? {
        MembersFill(r.value, rest, e.value);
        FillOn(s, e, r, EvalMembers(rest, s.ctx, e.value), Run(r.value, OfMembers(rest)));
      }
  }

  lemma AppendReads(h: seq<Node>, g: seq<Node>, p: Ref, ts: seq<Tree>, r: Ref, v: Tree)
    requires p < |h| && h <= g && h[p].ListNode? && ReadsList(h, h[p].items, ts, p + 1) && Reads(g, r, v, p + 1)
    ensures var f := g[p := ListNode(h[p].items + [r])];
      Keeps(h, f, p) && ReadsList(f, f[p].items, ts + [v], p + 1)
  {
    var f := g[p := ListNode(h[p].items + [r])];
    ListFrame(h, f, h[p].items, ts, p + 1, p + 1);
    ReadsFrame(g, f, r, v, p + 1, p + 1);
  }

  lemma AppendFills(s: State, t: State, ts: seq<Tree>, v: Tree)
    requires ListAt(s, ts) && t.values != [] && Balanced(s, DropValue(t)) && s.heap <= t.heap
    requires Reads(t.heap, LastValue(t), v, |s.heap|)
    ensures OnList(t)
    ensures FilledList(s, Ok(ts + [v]), Ok(DropValue(Add(t, LastValue(t)))))
  {
    ReadsFrame(t.heap, t.heap, LastValue(t), v, |s.heap|, Top(s) + 1);
    AppendReads(s.heap, t.heap, Top(s), ts, LastValue(t), v);
    assert t.heap[Top(s)] == s.heap[Top(s)];
  }

  function WithItem(ts: seq<Tree>, e: Result<Tree>): Result<seq<Tree>> {
    if e.Err? then Err(e.error) else Ok(ts + [e.value])
  }

  lemma ItemFills(s: State, e: Result<Tree>, q: Result<State>, ts: seq<Tree>)
    requires ListAt(s, ts) && Built(s, e, q)
    ensures FilledList(s, WithItem(ts, e), Next(q, Append))
  {
    if e.Ok? {
      AppendFills(s, q.value, ts, e.value);
    }
  }

  lemma {:induction false} ItemsFill(s: State, es: List<Item>, ts: seq<Tree>)
    requires ListAt(s, ts)
    ensures FilledList(s, EvalItems(es, s.ctx, ts), Run(s, OfItems(es)))
    decreases es, 0
  {
    match es
    case Nil =>
    case Cons(ItemComma, rest) =>
      assert ([Warn] + OfItems(rest))[1..] == OfItems(rest);
      ItemsFill(s, rest, ts);
    case Cons(Element(v), rest) =>
      RunAround(s, OfJson(v), Append, OfItems(rest));
      JsonBuilds(s, v);
      var e, r := WithItem(ts, Eval(v, s.ctx)), Next(Run(s, OfJson(v)), Append);
      ItemFills(s, Eval(v, s.ctx), Run(s, OfJson(v)), ts);
      if e.Ok? {
        ItemsFill(r.value, rest, e.value);
        FillListOn(s, e, r, EvalItems(rest, s.ctx, e.value), Run(r.value, OfItems(rest)));
      }
  }
}
