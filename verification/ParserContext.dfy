/**
The parser context as the object it is: the actions update its stacks and
elements in place, and a whole parse returns the one element that is left.
*/
module ParserContext {
  import opened Common
  import opened ConfigSyntax
  import opened ParserActions
  import ParserRefinement
  import KeywordRefinement
  import Checks

  class D2ParserContext {
    var heap: seq<Node>        // the elements, which the stacks and the elements refer to
    var values: seq<Ref>       // the values on the parser's own stack
    var stack: seq<Ref>        // stack_
    var ctx: Context           // ctx_
    var cstack: seq<Context>   // cstack_

    ghost function Now(): State
      reads this
    {
      State(heap, values, stack, ctx, cstack)
    }

    constructor ()
      ensures Now() == INITIAL
    {
      heap, values, stack, ctx, cstack := [], [], [], NO_KEYWORD, [];
    }

    method EnterContext(c: Context)
      modifies `ctx, `cstack
      ensures Now() == Enter(old(Now()), c)
      ensures ctx == c && cstack == old(cstack) + [old(ctx)]
    {
      cstack := cstack + [ctx];
      ctx := c;
    }

    method LeaveContext() returns (err: Option<Error>)
      modifies `ctx, `cstack
      ensures Leave(old(Now())) == if err.Some? then Err(err.value) else Ok(Now())
      ensures err == if old(cstack) == [] then Some(UnbalancedContext) else None
      ensures old(cstack) != [] ==> old(cstack) == cstack + [ctx]
    {
      if cstack == [] {
        return Some(UnbalancedContext);
      }
      ctx := cstack[|cstack| - 1];
      cstack := cstack[..|cstack| - 1];
      return None;
    }

    /** The keys must not be there yet, looked up one after the other. */
    method CheckUnique(keys: seq<string>) returns (err: Option<Error>)
      requires OnMap(Now())
      ensures err == Unique(Now(), keys)
      ensures err.None? <==> forall i :: 0 <= i < |keys| ==> keys[i] !in Entries(Now())
      ensures err.Some? ==> exists i ::
        && 0 <= i < |keys| && err == Some(Duplicate(keys[i], ctx))
        && keys[i] in Entries(Now()) && forall j :: 0 <= j < i ==> keys[j] !in Entries(Now())
    {
      var entries := heap[stack[|stack| - 1]].entries;
      var i := 0;
      while i < |keys|
        invariant 0 <= i <= |keys| && FirstTaken(keys, entries.Keys) == FirstTaken(keys[i..], entries.Keys)
        invariant forall j :: 0 <= j < i ==> keys[j] !in entries
      {
        if keys[i] in entries {
          return Some(Duplicate(keys[i], ctx));
        }
        i := i + 1;
      }
      return None;
    }

    method CheckRequired(keys: seq<string>) returns (err: Option<Error>)
      requires OnMap(Now())
      ensures err == Required(Now(), keys)
      ensures err.None? <==> forall i :: 0 <= i < |keys| ==> keys[i] in Entries(Now())
      ensures err.Some? ==> exists i ::
        && 0 <= i < |keys| && err == Some(Missing(keys[i], ctx))
        && keys[i] !in Entries(Now()) && forall j :: 0 <= j < i ==> keys[j] in Entries(Now())
    {
      var entries := heap[stack[|stack| - 1]].entries;
      var i := 0;
      while i < |keys|
        invariant 0 <= i <= |keys| && FirstMissing(keys, entries.Keys) == FirstMissing(keys[i..], entries.Keys)
        invariant forall j :: 0 <= j < i ==> keys[j] in entries
      {
        if keys[i] !in entries {
          return Some(Missing(keys[i], ctx));
        }
        i := i + 1;
      }
      return None;
    }

    method NewElement(n: Node) returns (r: Ref)
      modifies `heap
      ensures r == old(|heap|) && Now() == Alloc(old(Now()), n)
    {
      r := |heap|;
      heap := heap + [n];
    }

    method SetEntry(key: string, r: Ref)
      requires OnMap(Now())
      modifies `heap
      ensures Now() == Set(old(Now()), key, r)
    {
      var top := stack[|stack| - 1];
      heap := heap[top := MapNode(heap[top].entries[key := r])];
    }

    method AddItem(r: Ref)
      requires OnList(Now())
      modifies `heap
      ensures Now() == Add(old(Now()), r)
    {
      var top := stack[|stack| - 1];
      heap := heap[top := ListNode(heap[top].items + [r])];
    }

    method PopValue() returns (r: Ref)
      requires values != []
      modifies `values
      ensures r == LastValue(old(Now())) && Now() == DropValue(old(Now()))
    {
      r := values[|values| - 1];
      values := values[..|values| - 1];
    }

    /** The actions of generic JSON. */
    method ReduceJson(a: Action) returns (err: Option<Error>)
      requires a.Begin? || a.NewScalar? || a.TakeTop? || a.PushBack? || a.OpenMap? || a.OpenList? || a.Put? || a.Append?
      modifies this
      ensures Step(old(Now()), a) == if err.Some? then Err(err.value) else Ok(Now())
    {
      err := None;
      var r;
      match a {
        case Begin(c) => ctx := c;
        case NewScalar(x) =>
          r := NewElement(ScalarNode(x));
          values := values + [r];
        case TakeTop =>
          if stack == [] { return Some(EmptyStack); }
          values := values + [stack[|stack| - 1]];
          stack := stack[..|stack| - 1];
        case PushBack =>
          if values == [] { return Some(EmptyStack); }
          r := PopValue();
          stack := stack + [r];
        case OpenMap =>
          r := NewElement(MapNode(map[]));
          stack := stack + [r];
        case OpenList =>
          r := NewElement(ListNode([]));
          stack := stack + [r];
        case Put(key) => err := PutEntry(key);
        case Append =>
          if values == [] || stack == [] { return Some(EmptyStack); }
          var top := stack[|stack| - 1];
          if top >= |heap| || !heap[top].ListNode? { return Some(TypeError); }
          r := PopValue();
          AddItem(r);
      }
    }

    method PutEntry(key: string) returns (err: Option<Error>)
      modifies this
      ensures Step(old(Now()), Put(key)) == if err.Some? then Err(err.value) else Ok(Now())
    {
      if values == [] || stack == [] { return Some(EmptyStack); }
      var top := stack[|stack| - 1];
      if top >= |heap| || !heap[top].MapNode? { return Some(TypeError); }
      err := CheckUnique([key]);
      if err.Some? { return; }
      var r := PopValue();
      SetEntry(key, r);
    }

    /** Whether the open element is a map, and what is wrong if not. */
    method CheckOnMap() returns (err: Option<Error>)
      ensures err == if OnMap(Now()) then None else Some(NotAMap(Now()).error)
    {
      if stack == [] { return Some(EmptyStack); }
      var top := stack[|stack| - 1];
      if top >= |heap| || !heap[top].MapNode? { return Some(TypeError); }
      return None;
    }

    /** A keyword with a map or a list: the new element is linked to its parent and then opened. */
    method OpenKeyword(key: string, c: Context, n: Node) returns (err: Option<Error>)
      modifies this
      ensures OpenKey(old(Now()), key, c, n) == if err.Some? then Err(err.value) else Ok(Now())
    {
      err := CheckOnMap();
      if err.Some? { return; }
      err := CheckUnique([key]);
      if err.Some? { return; }
      var r := NewElement(n);
      SetEntry(key, r);
      stack := stack + [r];
      EnterContext(c);
    }

    method CloseElement(required: seq<string>) returns (err: Option<Error>)
      modifies `stack
      ensures Close(old(Now()), required) == if err.Some? then Err(err.value) else Ok(Now())
    {
      if stack == [] { return Some(EmptyStack); }
      if required != [] {
        err := CheckOnMap();
        if err.Some? { return; }
        err := CheckRequired(required);
        if err.Some? { return; }
      }
      stack := stack[..|stack| - 1];
      return None;
    }

    method ReduceElement(a: Action) returns (err: Option<Error>)
      requires a.KeyMap? || a.KeyList? || a.EndKey? || a.ItemMap? || a.EndItem? || a.Require?
      modifies this
      ensures Step(old(Now()), a) == if err.Some? then Err(err.value) else Ok(Now())
    {
      err := None;
      match a {
        case KeyMap(key, c) => err := OpenKeyword(key, c, MapNode(map[]));
        case KeyList(key, c) => err := OpenKeyword(key, c, ListNode([]));
        case EndKey(required) =>
          err := CloseElement(required);
          if err.Some? { return; }
          err := LeaveContext();
        case ItemMap =>
          if stack == [] { return Some(EmptyStack); }
          var top := stack[|stack| - 1];
          if top >= |heap| || !heap[top].ListNode? { return Some(TypeError); }
          var r := NewElement(MapNode(map[]));
          AddItem(r);
          stack := stack + [r];
        case EndItem(required) => err := CloseElement(required);
        case Require(required) =>
          if required == [] { return; }
          err := CheckOnMap();
          if err.Some? { return; }
          err := CheckRequired(required);
      }
    }

    method ReduceScalar(a: Action) returns (err: Option<Error>)
      requires a.EnterKey? || a.SetScalar? || a.PlainScalar? || a.SetValue?
      modifies this
      ensures Step(old(Now()), a) == if err.Some? then Err(err.value) else Ok(Now())
    {
      var r;
      match a {
        case EnterKey(unique, c) =>
          err := None;
          if unique != [] {
            err := CheckOnMap();
            if err.Some? { return; }
            err := CheckUnique(unique);
            if err.Some? { return; }
          }
          EnterContext(c);
        case SetScalar(key, check, x) =>
          if !Passes(check, x) { return Some(Rejected(check)); }
          err := CheckOnMap();
          if err.Some? { return; }
          r := NewElement(ScalarNode(x));
          SetEntry(key, r);
          err := LeaveContext();
        case PlainScalar(key, check, x) =>
          err := CheckOnMap();
          if err.Some? { return; }
          err := CheckUnique([key]);
          if err.Some? { return; }
          if !Passes(check, x) { return Some(Rejected(check)); }
          r := NewElement(ScalarNode(x));
          SetEntry(key, r);
        case SetValue(key) =>
          if values == [] { return Some(EmptyStack); }
          err := CheckOnMap();
          if err.Some? { return; }
          r := PopValue();
          SetEntry(key, r);
          err := LeaveContext();
      }
    }

    /** The user context takes the comment that is there into itself. */
    method MergeUserContext() returns (err: Option<Error>)
      modifies this
      ensures UserContextStep(old(Now())) == if err.Some? then Err(err.value) else Ok(Now())
    {
      if values == [] { return Some(EmptyStack); }
      err := CheckOnMap();
      if err.Some? { return; }
      var entries := heap[stack[|stack| - 1]].entries;
      var u := values[|values| - 1];
      if USER_CONTEXT in entries {
        var before := entries[USER_CONTEXT];
        if before >= |heap| || !heap[before].MapNode? { return Some(TypeError); }
        if heap[before].entries.Keys != {COMMENT} { return Some(DuplicateUserContext); }
        if u >= |heap| || !heap[u].MapNode? { return Some(TypeError); }
        heap := heap[u := MapNode(heap[u].entries[COMMENT := heap[before].entries[COMMENT]])];
      }
      u := PopValue();
      SetEntry(USER_CONTEXT, u);
    }

    /** A comment makes a user context, which takes over the entries of the one that is there. */
    method MergeComment(text: string) returns (err: Option<Error>)
      modifies this
      ensures CommentStep(old(Now()), text) == if err.Some? then Err(err.value) else Ok(Now())
    {
      err := CheckOnMap();
      if err.Some? { return; }
      var entries := heap[stack[|stack| - 1]].entries;
      var older: map<string, Ref> := map[];
      if USER_CONTEXT in entries {
        var before := entries[USER_CONTEXT];
        if before >= |heap| || !heap[before].MapNode? { return Some(TypeError); }
        if COMMENT in heap[before].entries { return Some(DuplicateComment); }
        older := NotNullRefs(heap, heap[before].entries);
      }
      var note := NewElement(ScalarNode(Text(text)));
      assert map[COMMENT := note] + map[] == map[COMMENT := note];
      var u := NewElement(MapNode(map[COMMENT := note] + older));
      SetEntry(USER_CONTEXT, u);
    }

    /** One reduction of the parser. */
    method Reduce(a: Action) returns (err: Option<Error>)
      modifies this
      ensures Step(old(Now()), a) == if err.Some? then Err(err.value) else Ok(Now())
    {
      match a {
        case Begin(_) => err := ReduceJson(a);
        case NewScalar(_) => err := ReduceJson(a);
        case TakeTop => err := ReduceJson(a);
        case PushBack => err := ReduceJson(a);
        case OpenMap => err := ReduceJson(a);
        case OpenList => err := ReduceJson(a);
        case Put(_) => err := ReduceJson(a);
        case Append => err := ReduceJson(a);
        case KeyMap(_, _) => err := ReduceElement(a);
        case KeyList(_, _) => err := ReduceElement(a);
        case EndKey(_) => err := ReduceElement(a);
        case ItemMap => err := ReduceElement(a);
        case EndItem(_) => err := ReduceElement(a);
        case Require(_) => err := ReduceElement(a);
        case EnterKey(_, _) => err := ReduceScalar(a);
        case SetScalar(_, _, _) => err := ReduceScalar(a);
        case PlainScalar(_, _, _) => err := ReduceScalar(a);
        case SetValue(_) => err := ReduceScalar(a);
        case SetUserContext =>
          err := MergeUserContext();
          if err.Some? { return; }
          err := LeaveContext();
        case SetComment(text) =>
          err := MergeComment(text);
          if err.Some? { return; }
          err := LeaveContext();
        case Complain(key) => err := Some(Unexpected(key, ctx));
        case Warn => err := None;
      }
    }

    /** The reductions of a derivation, and the element that is left: its meaning, or its first error. */
    method Parse(d: Start) returns (r: Result<Ref>)
      requires Now() == INITIAL
      modifies this
      ensures EvalStart(d).Err? ==> r == Err(EvalStart(d).error)
      ensures EvalStart(d).Ok? ==>
        && r.Ok? && ParserRefinement.Reads(heap, r.value, EvalStart(d).value, 0)
        && stack == [r.value] && cstack == []
      ensures r != Err(UnbalancedContext) && r != Err(EmptyStack)
      ensures r.Ok? ==> Checks.AllChecked(d)
      ensures r.Err? && r.error.Rejected? ==> !Checks.AllChecked(d)
    {
      var xs := OfStart(d);
      var i := 0;
      Checks.AcceptedIsChecked(d);
      while i < |xs|
        invariant 0 <= i <= |xs| && Run(INITIAL, xs) == Run(Now(), xs[i..])
      {
        assert xs[i..][1..] == xs[i + 1..];
        var err := Reduce(xs[i]);
        if err.Some? {
          KeywordRefinement.ParseIsEvaluation(d);
          KeywordRefinement.NeverUnderflows(d);
          return Err(err.value);
        }
        i := i + 1;
      }
      KeywordRefinement.ParseIsEvaluation(d);
      if |stack| != 1 {
        assert false;
      }
      return Ok(stack[0]);
    }
  }
}
