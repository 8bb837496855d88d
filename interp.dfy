/**
  The splice-and-reduce interpreter of plt.js (`interp`, `toFunctionToken`,
  `isDefined`) and the exported entry point `plt(code)`.

  JavaScript arrays and objects are shared by reference, and `interp` relies
  on it: it splices the very array it was given (a paren's or a block's
  `value`), and a function expression keeps the `variables` object of the
  call that made it. Both kinds of object live in a `Heap`: a token refers to
  an array by its index in `lists`, and a function expression refers to its
  scope by its index in `scopes`.
*/
module Interp {
  import Lexer

  datatype Option<T> = None | Some(value: T)

  /** The builtins of plt.js, all made by `toFunctionToken`. */
  datatype HostId = Print | Add | Subtract | Multiply | Divide | Exp | Mod

  /** A value in a token array. `Closure` is a `function_expr` made by a `fn`
      literal: its scope object, its parameter names and the array of its block.
      `Host` is a `function_expr` whose `code` is a JavaScript function. `Null` and
      `Undefined` are the JavaScript values that can end up in a token array. */
  datatype Token =
    | Holder(list: nat)
    | Paren(list: nat)
    | Block(list: nat)
    | Str(text: string)
    | Text(name: string)
    | Number(digits: string)
    | Closure(scope: nat, params: seq<string>, body: nat)
    | Host(id: HostId)
    | Null
    | Undefined

  /** The arrays and the variable objects that tokens refer to. */
  datatype Heap = Heap(lists: seq<seq<Token>>, scopes: seq<map<string, Token>>)

  function ListAt(h: Heap, l: nat): seq<Token> {
    if l < |h.lists| then h.lists[l] else []
  }

  function ScopeAt(h: Heap, s: nat): map<string, Token> {
    if s < |h.scopes| then h.scopes[s] else map[]
  }

  /** `tokens[k]`: reading past the end of an array gives `undefined`. */
  function At(ts: seq<Token>, k: nat): Token {
    if k < |ts| then ts[k] else Undefined
  }

  predicate Nullish(t: Token) {
    t.Null? || t.Undefined?
  }

  /** `tokens.splice(start, count, ...items)` for a start that is not negative:
      JavaScript clamps the start and the end of the deleted range to the array. */
  function Splice(ts: seq<Token>, start: nat, count: nat, items: seq<Token>): (r: seq<Token>)
    ensures start + count <= |ts| ==> r == ts[..start] + items + ts[start + count..]
    ensures start + count <= |ts| ==> |r| == |ts| - count + |items|
  {
    var s := if start <= |ts| then start else |ts|;
    var e := if s + count <= |ts| then s + count else |ts|;
    ts[..s] + items + ts[e..]
  }

  // ---- isDefined and toFunctionToken

  /** `tokens.filter(isDefined)`: `isDefined` is `typeof n !== 'undefined'`, so
      `null` counts as defined. */
  function Defined(ts: seq<Token>): (r: seq<Token>)
    ensures |r| > 0 <==> exists k :: 0 <= k < |ts| && !ts[k].Undefined?
    ensures forall k :: 0 <= k < |r| ==> !r[k].Undefined? && r[k] in ts
    decreases |ts|
  {
    if ts == [] then []
    else
      var rest := Defined(ts[1..]);
      assert forall k :: 0 <= k < |rest| ==> rest[k] in ts;
      if ts[0].Undefined? then rest else [ts[0]] + rest
  }

  lemma {:induction false} DefinedAppend(a: seq<Token>, b: seq<Token>)
    ensures Defined(a + b) == Defined(a) + Defined(b)
    decreases |a|
  {
    if a == [] {
      assert a + b == b;
    } else {
      assert (a + b)[0] == a[0] && (a + b)[1..] == a[1..] + b;
      DefinedAppend(a[1..], b);
    }
  }

  /** What a builtin's callback returns: one JavaScript value, or an array. */
  datatype HostReturn = Value(token: Token) | Values(tokens: seq<Token>)

  /** The wrapper `toFunctionToken` puts around a builtin's callback: a result
      that is not an array becomes a one-element array. */
  function ToFunctionResult(r: HostReturn): (ts: seq<Token>)
    ensures r.Value? ==> |ts| == 1 && ts[0] == r.token
    ensures r.Values? ==> ts == r.tokens
    ensures r.Value? ==> (Defined(ts) == [] <==> r.token.Undefined?)
  {
    match r
    case Value(t) => [t]
    case Values(ts) => ts
  }

  /** The floating-point arithmetic of the builtins, on the two argument tokens:
      the text of the resulting number. */
  type Arith = (HostId, Token, Token) -> string

  datatype Outcome = Done(tokens: seq<Token>) | Thrown(message: string) | OutOfGas

  /** Calling a builtin. `print` reads `token.type` of its first argument and the
      arithmetic builtins destructure `{value}` from their first two, so `null` or
      `undefined` there throws a TypeError; `print` itself returns `undefined`. */
  function HostCall(id: HostId, args: seq<Token>, arith: Arith): (r: Outcome)
    ensures r.Done? ==> |r.tokens| == 1
    ensures r.Done? <==> !Nullish(At(args, 0)) && (id == Print || !Nullish(At(args, 1)))
  {
    if id == Print then
      if Nullish(At(args, 0)) then Thrown("TypeError")
      else Done(ToFunctionResult(Value(Undefined)))
    else if Nullish(At(args, 0)) || Nullish(At(args, 1)) then Thrown("TypeError")
    else Done(ToFunctionResult(Value(Number(arith(id, args[0], args[1])))))
  }

  /** A `print` call gives nothing defined, so its call site is removed; an
      arithmetic call gives exactly one defined value, a number. */
  lemma HostResults(id: HostId, args: seq<Token>, arith: Arith)
    requires HostCall(id, args, arith).Done?
    ensures var ts := HostCall(id, args, arith).tokens;
      if id == Print then Defined(ts) == [] else Defined(ts) == ts && ts[0].Number?
  {
  }

  // ---- The builtins, the pending assignment, the rules

  const Builtins: map<string, Token> :=
    map["print" := Host(Print), "add" := Host(Add), "subtract" := Host(Subtract),
        "multiply" := Host(Multiply), "divide" := Host(Divide), "exp" := Host(Exp),
        "mod" := Host(Mod)]

  /** The `settingVariable` slot: `null`, `Symbol.for('return')` or a name. */
  datatype Pending = Idle | Return | Assign(name: string)

  /** JavaScript truthiness of the slot: the empty name is falsy. */
  predicate Armed(p: Pending) {
    p.Return? || (p.Assign? && p.name != "")
  }

  /** The check at every loop head: with an armed slot and a non-empty output,
      `^` collapses the output to its last element, and a name receives the
      popped last element. */
  function Head(p: Pending, ret: seq<Token>, vars: map<string, Token>): (r: (seq<Token>, map<string, Token>))
    ensures !Armed(p) || ret == [] ==> r == (ret, vars)
    ensures Armed(p) && ret != [] && p.Return? ==> r == ([ret[|ret| - 1]], vars)
    ensures Armed(p) && ret != [] && p.Assign? ==>
      r.0 + [ret[|ret| - 1]] == ret && r.1 == vars[p.name := ret[|ret| - 1]]
  {
    if Armed(p) && |ret| > 0 then
      var last := ret[|ret| - 1];
      if p.Return? then ([last], vars) else (ret[..|ret| - 1], vars[p.name := last])
    else (ret, vars)
  }

  /** Which rule of the loop applies at index `i`. */
  datatype Rule =
    | Inline(code: nat)                       // a holder: splice its array in
    | SetVariable(name: string)               // `name -> ...`
    | FunctionLiteral(paramList: nat, body: nat) // `fn (params) {body}`
    | Invoke(callee: Token, argList: nat)     // a function_expr followed by a paren
    | ReturnOverride                          // `^` followed by something
    | Lookup(name: string)                    // any other text token
    | Keep                                    // every other token goes to the output

  predicate IsFunction(t: Token) {
    t.Closure? || t.Host?
  }

  /** The message thrown for an unbound name. */
  function NotDefined(name: string): string {
    "Variable " + name + " is not defined"
  }

  /** The tests of the loop body in the order the source makes them. */
  function Select(ts: seq<Token>, i: nat): (r: Rule)
    requires i < |ts|
    ensures r.Keep? <==> !ts[i].Holder? && !ts[i].Text? && !(IsFunction(ts[i]) && At(ts, i + 1).Paren?)
    ensures r.Lookup? ==> ts[i] == Text(r.name)
  {
    var t, next, after := ts[i], At(ts, i + 1), At(ts, i + 2);
    if t.Holder? then Inline(t.list)
    else if t.Text? && next.Text? && next.name == "->" then SetVariable(t.name)
    else if t.Text? && t.name == "fn" && next.Paren? && after.Block? then FunctionLiteral(next.list, after.list)
    else if IsFunction(t) && next.Paren? then Invoke(t, next.list)
    else if t.Text? && t.name == "^" && !Nullish(next) then ReturnOverride
    else if t.Text? then Lookup(t.name)
    else Keep
  }

  // ---- Parameter lists

  /** The names in a `fn` parameter list, or None when an entry is not a text token
      (the source throws 'Invalid token inside argument list'). */
  function ParamNames(items: seq<Token>): (r: Option<seq<string>>)
    ensures r.Some? <==> forall k :: 0 <= k < |items| ==> items[k].Text?
    ensures r.Some? ==> |r.value| == |items| && forall k :: 0 <= k < |items| ==> r.value[k] == items[k].name
    decreases |items|
  {
    if items == [] then Some([])
    else
      var n := |items| - 1;
      match ParamNames(items[..n])
      case None => None
      case Some(front) => if items[n].Text? then Some(front + [items[n].name]) else None
  }

  /** The `for (var argToken of argsToken.value)` loop of the `fn` rule. */
  method CollectParams(items: seq<Token>) returns (r: Option<seq<string>>)
    ensures r == ParamNames(items)
  {
    var args: seq<string> := [];
    for k := 0 to |items|
      invariant ParamNames(items[..k]) == Some(args)
    {
      assert items[..k + 1][..k] == items[..k];
      if items[k].Text? {
        args := args + [items[k].name];
      } else {
        return None;
      }
    }
    assert items[..|items|] == items;
    return Some(args);
  }

  /** `functionScopeArgs`: parameter k is bound to argument k, or to `null` when
      there are fewer arguments; a later duplicate name wins. */
  function BindParams(params: seq<string>, args: seq<Token>): (m: map<string, Token>)
    ensures m.Keys == set p | p in params
    decreases |params|
  {
    if params == [] then map[]
    else
      var n := |params| - 1;
      BindParams(params[..n], args)[params[n] := if n < |args| then args[n] else Null]
  }

  /** The value a parameter receives: the argument at the position of its last
      occurrence, or `null` past the end of the arguments; extra arguments are ignored. */
  lemma {:induction false} BindParamsByPosition(params: seq<string>, args: seq<Token>, k: nat)
    requires k < |params| && params[k] !in params[k + 1..]
    ensures params[k] in BindParams(params, args)
    ensures BindParams(params, args)[params[k]] == if k < |args| then args[k] else Null
    decreases |params|
  {
    var n := |params| - 1;
    if k < n {
      assert params[..n][k + 1..] + [params[n]] == params[k + 1..];
      assert params[n] in params[k + 1..];
      BindParamsByPosition(params[..n], args, k);
    }
  }

  /** The `for (let [ i, argName ] of Object.entries(functionArgs))` loop. */
  method BindArgs(params: seq<string>, args: seq<Token>) returns (m: map<string, Token>)
    ensures m == BindParams(params, args)
  {
    m := map[];
    for k := 0 to |params|
      invariant m == BindParams(params[..k], args)
    {
      assert params[..k + 1][..k] == params[..k];
      m := m[params[k] := if k < |args| then args[k] else Null];
    }
    assert params[..|params|] == params;
  }

  /** The call-site rewrite: `tokens.splice(i, 2, ...result)` when some entry of the
      result is defined, `tokens.splice(i, 2)` otherwise. */
  function ReplaceCallSite(ts: seq<Token>, i: nat, result: seq<Token>): seq<Token> {
    if |Defined(result)| > 0 then Splice(ts, i, 2, result) else Splice(ts, i, 2, [])
  }

  /** The check on the result only ever drops `undefined` entries: the defined
      tokens are those of a plain splice. */
  lemma CallSiteKeepsDefined(ts: seq<Token>, i: nat, result: seq<Token>)
    ensures Defined(ReplaceCallSite(ts, i, result)) == Defined(Splice(ts, i, 2, result))
  {
    var s := if i <= |ts| then i else |ts|;
    var e := if s + 2 <= |ts| then s + 2 else |ts|;
    DefinedAppend(ts[..s] + result, ts[e..]);
    DefinedAppend(ts[..s], result);
    DefinedAppend(ts[..s] + [], ts[e..]);
    DefinedAppend(ts[..s], []);
  }

  // ---- The reference semantics of interp

  /** No text token and no holder: what the output of the loop is made of. */
  predicate Reduced(ts: seq<Token>) {
    forall k :: 0 <= k < |ts| ==> !ts[k].Text? && !ts[k].Holder?
  }

  /** The local variables of one `interp` call: its array `tokens`, its `variables`
      object, the index `i`, `returnTokens` and `settingVariable`. */
  datatype Frame = Frame(list: nat, scope: nat, i: nat, ret: seq<Token>, pending: Pending)

  datatype Final = Final(heap: Heap, outcome: Outcome, gas: nat)

  /** `interp(tokens, parentVariables)` on the array `list`, with `gas` loop
      iterations to spend; the call allocates its `variables` object,
      `builtins ⊕ parentVariables`. */
  function Eval(h: Heap, list: nat, parent: map<string, Token>, gas: nat, arith: Arith): (f: Final)
    ensures f.gas <= gas
    ensures |f.heap.lists| == |h.lists| && |f.heap.scopes| > |h.scopes|
    ensures forall k :: 0 <= k < |h.scopes| ==> f.heap.scopes[k] == h.scopes[k]
    ensures f.outcome.Done? ==> Reduced(f.outcome.tokens)
    decreases gas, 1
  {
    Loop(h.(scopes := h.scopes + [Builtins + parent]), Frame(list, |h.scopes|, 0, [], Idle), gas, arith)
  }

  /** Calling a function expression on already reduced arguments: a builtin
      directly, a closure by reducing its block in `captured ⊕ params`. */
  function Apply(h: Heap, callee: Token, args: seq<Token>, gas: nat, arith: Arith): (f: Final)
    requires IsFunction(callee)
    ensures f.gas <= gas
    ensures |f.heap.lists| == |h.lists| && |f.heap.scopes| >= |h.scopes|
    ensures forall k :: 0 <= k < |h.scopes| ==> f.heap.scopes[k] == h.scopes[k]
    decreases gas, 2
  {
    if callee.Host? then Final(h, HostCall(callee.id, args, arith), gas)
    else Eval(h, callee.body, ScopeAt(h, callee.scope) + BindParams(callee.params, args), gas, arith)
  }

  /** `h2` has the arrays of `h`, perhaps rewritten, and the scope objects of `h`,
      all unchanged but `own`, perhaps followed by new ones. */
  predicate Extends(h: Heap, h2: Heap, own: nat) {
    |h2.lists| == |h.lists| && |h2.scopes| >= |h.scopes| &&
    forall k :: 0 <= k < |h.scopes| && k != own ==> h2.scopes[k] == h.scopes[k]
  }

  /** What one iteration of the loop ends in: the `continue` to the next
      iteration, or leaving the call by a throw (or by running out of gas). */
  datatype Turn = Again(heap: Heap, frame: Frame, gas: nat) | Over(final: Final)

  /** The `while (i < tokens.length)` loop of `interp`: each iteration spends one
      unit of gas. Only the frame's own scope may change among the scopes that
      already exist. */
  function Loop(h: Heap, fr: Frame, gas: nat, arith: Arith): (f: Final)
    requires fr.scope < |h.scopes| && Reduced(fr.ret)
    ensures f.gas <= gas && Extends(h, f.heap, fr.scope)
    ensures f.outcome.Done? ==> Reduced(f.outcome.tokens)
    decreases gas, 0
  {
    if fr.i >= |ListAt(h, fr.list)| then Final(h, Done(fr.ret), gas)
    else if gas == 0 then Final(h, OutOfGas, 0)
    else Resume(Iteration(h, fr, gas - 1, arith), arith)
  }

  /** One iteration of the loop: the check at its head, which may rewrite
      `returnTokens` and the frame's scope, then the body. */
  function Iteration(h: Heap, fr: Frame, gas: nat, arith: Arith): (t: Turn)
    requires fr.scope < |h.scopes| && Reduced(fr.ret) && fr.i < |ListAt(h, fr.list)|
    ensures t.Again? ==>
      (t.gas <= gas && t.frame.list == fr.list && t.frame.scope == fr.scope &&
       Reduced(t.frame.ret) && Extends(h, t.heap, fr.scope))
    ensures t.Over? ==> t.final.gas <= gas && Extends(h, t.final.heap, fr.scope) && !t.final.outcome.Done?
    ensures t.Again? && fr.pending != Idle ==> t.frame.pending != Idle
    decreases gas, 6
  {
    var (ret, vars) := Head(fr.pending, fr.ret, h.scopes[fr.scope]);
    Advance(h.(scopes := h.scopes[fr.scope := vars]), fr.(ret := ret), gas, arith)
  }

  /** The `continue` into the next iteration, or the end of the call. */
  function Resume(t: Turn, arith: Arith): (f: Final)
    requires t.Again? ==> t.frame.scope < |t.heap.scopes| && Reduced(t.frame.ret)
    ensures t.Again? ==> f.gas <= t.gas && Extends(t.heap, f.heap, t.frame.scope)
    ensures t.Again? ==> (f.outcome.Done? ==> Reduced(f.outcome.tokens))
    ensures t.Over? ==> f == t.final
    decreases if t.Again? then t.gas else 0, 5
  {
    match t
    case Again(h, fr, gas) => Loop(h, fr, gas, arith)
    case Over(f) => f
  }

  /** One iteration after the check at the loop head: the rule `Select` picks at
      index `i`, applied to the array and the scope of the frame. Only a call
      spends gas of its own; leaving the loop early is never a normal return. */
  function Advance(h: Heap, fr: Frame, gas: nat, arith: Arith): (t: Turn)
    requires fr.scope < |h.scopes| && Reduced(fr.ret) && fr.i < |ListAt(h, fr.list)|
    ensures t.Again? ==>
      (t.gas <= gas && t.frame.list == fr.list && t.frame.scope == fr.scope &&
       Reduced(t.frame.ret) && Extends(h, t.heap, fr.scope))
    ensures t.Over? ==> t.final.gas <= gas && Extends(h, t.final.heap, fr.scope) && !t.final.outcome.Done?
    ensures t.Again? && fr.pending != Idle ==> t.frame.pending != Idle
    decreases gas, 4
  {
    var ts, i, vars := ListAt(h, fr.list), fr.i, h.scopes[fr.scope];
    match Select(ts, i)
    case Inline(code) =>
      Again(h.(lists := h.lists[fr.list := Splice(ts, i, 1, ListAt(h, code))]), fr, gas)
    case SetVariable(name) =>
      Again(h.(scopes := h.scopes[fr.scope := vars[name := Null]]), fr.(i := i + 2, pending := Assign(name)), gas)
    case FunctionLiteral(paramList, body) =>
      var names := ParamNames(ListAt(h, paramList));
      if names.None? then Over(Final(h, Thrown("Invalid token inside argument list"), gas))
      else Again(h.(lists := h.lists[fr.list := Splice(ts, i, 3, [Closure(fr.scope, names.value, body)])]), fr, gas)
    case Invoke(callee, argList) =>
      Call(h, fr, callee, argList, gas, arith)
    case ReturnOverride =>
      Again(h, fr.(i := i + 1, pending := Return), gas)
    case Lookup(name) =>
      if name in vars then Again(h.(lists := h.lists[fr.list := Splice(ts, i, 1, [vars[name]])]), fr, gas)
      else Over(Final(h, Thrown(NotDefined(name)), gas))
    case Keep =>
      Again(h, fr.(i := i + 1, ret := fr.ret + [ts[i]]), gas)
  }

  /** The call rule: reduce the argument paren in the frame's scope, apply the
      callee to the result, and rewrite the call site in the array as it is after
      both calls, then go on at the same index. */
  function Call(h: Heap, fr: Frame, callee: Token, argList: nat, gas: nat, arith: Arith): (t: Turn)
    requires fr.list < |h.lists| && fr.scope < |h.scopes| && Reduced(fr.ret) && IsFunction(callee)
    ensures t.Again? ==> t.gas <= gas && t.frame == fr && Extends(h, t.heap, fr.scope)
    ensures t.Over? ==> t.final.gas <= gas && Extends(h, t.final.heap, fr.scope) && !t.final.outcome.Done?
    decreases gas, 3
  {
    var a := Eval(h, argList, h.scopes[fr.scope], gas, arith);
    if !a.outcome.Done? then Over(a)
    else
      var r := Apply(a.heap, callee, a.outcome.tokens, a.gas, arith);
      if !r.outcome.Done? then Over(r)
      else
        var current := ListAt(r.heap, fr.list);
        Again(r.heap.(lists := r.heap.lists[fr.list := ReplaceCallSite(current, fr.i, r.outcome.tokens)]), fr, r.gas)
  }

  // ---- What the rules do, one iteration at a time

  /** A holder is replaced by the tokens of its own array, and the loop goes on at
      the same index. */
  lemma HolderInlined(h: Heap, fr: Frame, gas: nat, arith: Arith)
    requires fr.scope < |h.scopes| && Reduced(fr.ret) && fr.i < |ListAt(h, fr.list)|
    requires ListAt(h, fr.list)[fr.i].Holder?
    ensures var ts := ListAt(h, fr.list);
      Advance(h, fr, gas, arith) ==
        Again(h.(lists := h.lists[fr.list := ts[..fr.i] + ListAt(h, ts[fr.i].list) + ts[fr.i + 1..]]), fr, gas)
  {
  }

  /** `name -> ...` binds `name` to `null` in the frame's own scope at once, arms the
      slot with `name` and skips both tokens. */
  lemma AssignmentArms(h: Heap, fr: Frame, gas: nat, arith: Arith, name: string)
    requires fr.scope < |h.scopes| && Reduced(fr.ret) && fr.i + 1 < |ListAt(h, fr.list)|
    requires ListAt(h, fr.list)[fr.i] == Text(name) && ListAt(h, fr.list)[fr.i + 1] == Text("->")
    ensures Advance(h, fr, gas, arith) ==
      Again(h.(scopes := h.scopes[fr.scope := h.scopes[fr.scope][name := Null]]),
            fr.(i := fr.i + 2, pending := Assign(name)), gas)
  {
  }

  /** `fn (params) {body}` becomes one function expression that refers to the
      frame's own scope object (not a copy of it), the parameter names in order and
      the block's array; a parameter list holding anything but names throws. */
  lemma FunctionLiteralCaptures(h: Heap, fr: Frame, gas: nat, arith: Arith, paramList: nat, body: nat)
    requires fr.scope < |h.scopes| && Reduced(fr.ret) && fr.i + 2 < |ListAt(h, fr.list)|
    requires var ts := ListAt(h, fr.list);
      ts[fr.i] == Text("fn") && ts[fr.i + 1] == Paren(paramList) && ts[fr.i + 2] == Block(body)
    ensures var ts, items := ListAt(h, fr.list), ListAt(h, paramList);
      if forall k :: 0 <= k < |items| ==> items[k].Text? then
        exists names: seq<string> ::
          |names| == |items| && (forall k :: 0 <= k < |items| ==> names[k] == items[k].name) &&
          Advance(h, fr, gas, arith) ==
            Again(h.(lists := h.lists[fr.list := ts[..fr.i] + [Closure(fr.scope, names, body)] + ts[fr.i + 3..]]), fr, gas)
      else
        Advance(h, fr, gas, arith) == Over(Final(h, Thrown("Invalid token inside argument list"), gas))
  {
    var names := ParamNames(ListAt(h, paramList));
    if names.Some? {
      var ts := ListAt(h, fr.list);
      assert Advance(h, fr, gas, arith) ==
        Again(h.(lists := h.lists[fr.list := ts[..fr.i] + [Closure(fr.scope, names.value, body)] + ts[fr.i + 3..]]), fr, gas);
    }
  }

  /** A function expression followed by a paren is a call, whatever the function
      expression is. */
  lemma CallRecognised(h: Heap, fr: Frame, gas: nat, arith: Arith)
    requires fr.scope < |h.scopes| && Reduced(fr.ret) && fr.i + 1 < |ListAt(h, fr.list)|
    requires IsFunction(ListAt(h, fr.list)[fr.i]) && ListAt(h, fr.list)[fr.i + 1].Paren?
    ensures var ts := ListAt(h, fr.list);
      Advance(h, fr, gas, arith) == Call(h, fr, ts[fr.i], ts[fr.i + 1].list, gas, arith)
  {
  }

  /** The call rule itself: a throw (or running out of gas) while reducing the
      arguments or in the callee leaves the loop with it. Otherwise the two
      call-site tokens of the array, as it is after both calls, are replaced by the
      callee's result when some entry of it is defined and removed when none is,
      and the loop goes on at the same index. */
  lemma CallSpliced(h: Heap, fr: Frame, callee: Token, argList: nat, gas: nat, arith: Arith)
    requires fr.list < |h.lists| && fr.scope < |h.scopes| && Reduced(fr.ret) && IsFunction(callee)
    ensures var a := Eval(h, argList, h.scopes[fr.scope], gas, arith);
      var t := Call(h, fr, callee, argList, gas, arith);
      if !a.outcome.Done? then t == Over(a)
      else
        var r := Apply(a.heap, callee, a.outcome.tokens, a.gas, arith);
        if !r.outcome.Done? then t == Over(r)
        else
          var ts, res := ListAt(r.heap, fr.list), r.outcome.tokens;
          fr.i + 2 <= |ts| ==>
            t == Again(r.heap.(lists := r.heap.lists[fr.list :=
                   if Defined(res) != [] then ts[..fr.i] + res + ts[fr.i + 2..] else ts[..fr.i] + ts[fr.i + 2..]]),
                 fr, r.gas)
  {
    var a := Eval(h, argList, h.scopes[fr.scope], gas, arith);
    if a.outcome.Done? {
      var r := Apply(a.heap, callee, a.outcome.tokens, a.gas, arith);
      if r.outcome.Done? {
        var ts, res := ListAt(r.heap, fr.list), r.outcome.tokens;
        if fr.i + 2 <= |ts| {
          assert ts[..fr.i] + [] + ts[fr.i + 2..] == ts[..fr.i] + ts[fr.i + 2..];
          assert ReplaceCallSite(ts, fr.i, res) ==
            if Defined(res) != [] then ts[..fr.i] + res + ts[fr.i + 2..] else ts[..fr.i] + ts[fr.i + 2..];
        }
      }
    }
  }

  /** A bound name is replaced in place by its value, which is looked at again at
      the same index; an unbound name throws. */
  lemma NameSubstituted(h: Heap, fr: Frame, gas: nat, arith: Arith, name: string)
    requires fr.scope < |h.scopes| && Reduced(fr.ret) && fr.i < |ListAt(h, fr.list)|
    requires ListAt(h, fr.list)[fr.i] == Text(name) && name != "fn" && name != "^"
    requires At(ListAt(h, fr.list), fr.i + 1) != Text("->")
    ensures var ts, vars := ListAt(h, fr.list), h.scopes[fr.scope];
      Advance(h, fr, gas, arith) ==
        if name in vars then Again(h.(lists := h.lists[fr.list := ts[..fr.i] + [vars[name]] + ts[fr.i + 1..]]), fr, gas)
        else Over(Final(h, Thrown(NotDefined(name)), gas))
  {
  }

  /** A `^` followed by a token arms the slot with the return marker and moves on. */
  lemma OverrideArms(h: Heap, fr: Frame, gas: nat, arith: Arith)
    requires fr.scope < |h.scopes| && Reduced(fr.ret) && fr.i + 1 < |ListAt(h, fr.list)|
    requires ListAt(h, fr.list)[fr.i] == Text("^") && !Nullish(ListAt(h, fr.list)[fr.i + 1])
    requires ListAt(h, fr.list)[fr.i + 1] != Text("->")
    ensures Advance(h, fr, gas, arith) == Again(h, fr.(i := fr.i + 1, pending := Return), gas)
  {
  }

  /** A `^` with nothing after it is not an override: it is looked up as a name, and
      throws unless a variable `^` was set. */
  lemma TrailingCaretThrows(h: Heap, fr: Frame, gas: nat, arith: Arith)
    requires fr.scope < |h.scopes| && Reduced(fr.ret)
    requires |ListAt(h, fr.list)| == fr.i + 1 && ListAt(h, fr.list)[fr.i] == Text("^")
    requires "^" !in h.scopes[fr.scope]
    ensures Advance(h, fr, gas, arith) == Over(Final(h, Thrown(NotDefined("^")), gas))
  {
  }

  // ---- The slot is never cleared

  /** Tokens the loop hands to the output as they are: no holder, no name and no
      function expression (which could start a call). */
  predicate Literal(t: Token) {
    t.Str? || t.Number? || t.Paren? || t.Block? || t.Null? || t.Undefined?
  }

  predicate LiteralsFrom(ts: seq<Token>, i: nat) {
    forall k :: i <= k < |ts| ==> Literal(ts[k])
  }

  function LastOnly(ts: seq<Token>): seq<Token> {
    if ts == [] then [] else [ts[|ts| - 1]]
  }

  function AllButLast(ts: seq<Token>): seq<Token> {
    if ts == [] then [] else ts[..|ts| - 1]
  }

  /** A literal goes to the output and the loop moves past it. */
  lemma LiteralKept(h: Heap, fr: Frame, gas: nat, arith: Arith)
    requires fr.scope < |h.scopes| && Reduced(fr.ret) && fr.i < |ListAt(h, fr.list)|
    requires Literal(ListAt(h, fr.list)[fr.i])
    ensures Advance(h, fr, gas, arith) ==
      Again(h, fr.(i := fr.i + 1, ret := fr.ret + [ListAt(h, fr.list)[fr.i]]), gas)
  {
  }

  /** A whole iteration over a literal: the check at the loop head, then the literal
      goes to the output. */
  lemma LoopOverLiteral(h: Heap, fr: Frame, gas: nat, arith: Arith)
    requires fr.scope < |h.scopes| && Reduced(fr.ret) && fr.i < |ListAt(h, fr.list)|
    requires Literal(ListAt(h, fr.list)[fr.i]) && gas > 0
    ensures var (ret, vars) := Head(fr.pending, fr.ret, h.scopes[fr.scope]);
      var t := ListAt(h, fr.list)[fr.i];
      Reduced(ret + [t]) &&
      Loop(h, fr, gas, arith) ==
        Loop(h.(scopes := h.scopes[fr.scope := vars]), fr.(i := fr.i + 1, ret := ret + [t]), gas - 1, arith)
  {
    var (ret, vars) := Head(fr.pending, fr.ret, h.scopes[fr.scope]);
    var h1 := h.(scopes := h.scopes[fr.scope := vars]);
    assert ListAt(h1, fr.list) == ListAt(h, fr.list);
    LiteralKept(h1, fr.(ret := ret), gas - 1, arith);
  }

  /** A run of literals as the loop sees it: at every loop head the slot acts on the
      output and the scope (it is never cleared), then the literal goes to the output.
      The result is what `returnTokens` and `variables` end as. */
  function Drain(p: Pending, ret: seq<Token>, vars: map<string, Token>, rest: seq<Token>): (seq<Token>, map<string, Token>)
    decreases |rest|
  {
    if rest == [] then (ret, vars)
    else
      var (r, v) := Head(p, ret, vars);
      Drain(p, r + [rest[0]], v, rest[1..])
  }

  /** Over a run of literals to the end of the array, the loop ends normally, with
      the output and the frame's scope as `Drain` computes them, one unit of gas
      spent per literal, and the arrays as they were. */
  lemma {:induction false} LiteralRun(h: Heap, fr: Frame, gas: nat, arith: Arith)
    requires fr.scope < |h.scopes| && Reduced(fr.ret)
    requires fr.i <= |ListAt(h, fr.list)| && LiteralsFrom(ListAt(h, fr.list), fr.i)
    requires |ListAt(h, fr.list)| - fr.i <= gas
    ensures var ts := ListAt(h, fr.list);
      var d := Drain(fr.pending, fr.ret, h.scopes[fr.scope], ts[fr.i..]);
      Loop(h, fr, gas, arith) == Final(h.(scopes := h.scopes[fr.scope := d.1]), Done(d.0), gas - (|ts| - fr.i))
    decreases |ListAt(h, fr.list)| - fr.i
  {
    var ts, vars := ListAt(h, fr.list), h.scopes[fr.scope];
    if fr.i < |ts| {
      LoopOverLiteral(h, fr, gas, arith);
      var (ret, vars1) := Head(fr.pending, fr.ret, vars);
      var h1 := h.(scopes := h.scopes[fr.scope := vars1]);
      assert ListAt(h1, fr.list) == ts;
      LiteralRun(h1, fr.(i := fr.i + 1, ret := ret + [ts[fr.i]]), gas - 1, arith);
      assert ts[fr.i..][1..] == ts[fr.i + 1..];
      var d := Drain(fr.pending, fr.ret, vars, ts[fr.i..]);
      assert h1.(scopes := h1.scopes[fr.scope := d.1]) == h.(scopes := h.scopes[fr.scope := d.1]);
    } else {
      assert h.(scopes := h.scopes[fr.scope := vars]) == h;
    }
  }

  lemma {:induction false} DrainIdle(p: Pending, ret: seq<Token>, vars: map<string, Token>, rest: seq<Token>)
    requires !Armed(p)
    ensures Drain(p, ret, vars, rest) == (ret + rest, vars)
    decreases |rest|
  {
    if rest != [] {
      assert Drain(p, ret, vars, rest) == Drain(p, ret + [rest[0]], vars, rest[1..]);
      DrainIdle(p, ret + [rest[0]], vars, rest[1..]);
      assert ret + [rest[0]] + rest[1..] == ret + rest;
    } else {
      assert ret + rest == ret;
    }
  }

  lemma {:induction false} DrainReturn(ret: seq<Token>, vars: map<string, Token>, rest: seq<Token>)
    requires rest != []
    ensures Drain(Return, ret, vars, rest) == (LastOnly(ret + rest[..|rest| - 1]) + [rest[|rest| - 1]], vars)
    decreases |rest|
  {
    var r := LastOnly(ret) + [rest[0]];
    if |rest| > 1 {
      DrainReturn(r, vars, rest[1..]);
      var tail := rest[1..][..|rest| - 2];
      assert rest[..|rest| - 1] == [rest[0]] + tail;
      if tail != [] {
        LastOnlyOfSuffix(r, tail);
        LastOnlyOfSuffix(ret + [rest[0]], tail);
        assert ret + rest[..|rest| - 1] == ret + [rest[0]] + tail;
      }
    }
  }

  /** `name` receives the last element of `ts`, if there is one. */
  function Receive(vars: map<string, Token>, name: string, ts: seq<Token>): map<string, Token> {
    if ts == [] then vars else vars[name := ts[|ts| - 1]]
  }

  lemma ReceiveTwice(vars: map<string, Token>, name: string, a: seq<Token>, b: seq<Token>)
    requires b != []
    ensures Receive(Receive(vars, name, a), name, b) == Receive(vars, name, b)
  {
  }

  lemma PoppedEnds(ret: seq<Token>, rest: seq<Token>)
    requires |rest| > 1
    ensures var r1, rest1 := AllButLast(ret) + [rest[0]], rest[1..];
      var popped, popped1 := ret + rest[..|rest| - 1], r1 + rest1[..|rest1| - 1];
      popped != [] && popped1 != [] && popped[|popped| - 1] == rest[|rest| - 2] &&
      popped1[|popped1| - 1] == rest[|rest| - 2] && AllButLast(r1) == AllButLast(ret)
  {
    var r1, rest1 := AllButLast(ret) + [rest[0]], rest[1..];
    if |rest1| > 1 {
      var popped1 := r1 + rest1[..|rest1| - 1];
      assert popped1[|popped1| - 1] == rest1[|rest1| - 2];
    }
  }

  lemma {:induction false} DrainAssign(x: string, ret: seq<Token>, vars: map<string, Token>, rest: seq<Token>)
    requires x != "" && rest != []
    ensures Drain(Assign(x), ret, vars, rest) ==
      (AllButLast(ret) + [rest[|rest| - 1]], Receive(vars, x, ret + rest[..|rest| - 1]))
    decreases |rest|
  {
    var r, v := AllButLast(ret), Receive(vars, x, ret);
    assert Head(Assign(x), ret, vars) == (r, v);
    assert Drain(Assign(x), ret, vars, rest) == Drain(Assign(x), r + [rest[0]], v, rest[1..]);
    if |rest| > 1 {
      var r1, rest1 := r + [rest[0]], rest[1..];
      DrainAssign(x, r1, v, rest1);
      PoppedEnds(ret, rest);
      ReceiveTwice(vars, x, ret, r1 + rest1[..|rest1| - 1]);
      assert Receive(vars, x, r1 + rest1[..|rest1| - 1]) == Receive(vars, x, ret + rest[..|rest| - 1]);
    } else {
      assert ret + rest[..|rest| - 1] == ret;
    }
  }

  /** With the slot unarmed, literals go to the output one by one and the heap is
      left as it is. */
  lemma LiteralsKept(h: Heap, fr: Frame, gas: nat, arith: Arith)
    requires fr.scope < |h.scopes| && Reduced(fr.ret) && !Armed(fr.pending)
    requires fr.i <= |ListAt(h, fr.list)| && LiteralsFrom(ListAt(h, fr.list), fr.i)
    requires |ListAt(h, fr.list)| - fr.i <= gas
    ensures var ts := ListAt(h, fr.list);
      Loop(h, fr, gas, arith) == Final(h, Done(fr.ret + ts[fr.i..]), gas - (|ts| - fr.i))
  {
    var ts, vars := ListAt(h, fr.list), h.scopes[fr.scope];
    LiteralRun(h, fr, gas, arith);
    DrainIdle(fr.pending, fr.ret, vars, ts[fr.i..]);
    assert h.(scopes := h.scopes[fr.scope := vars]) == h;
  }

  /** An array of literals reduces to itself. */
  lemma LiteralsReduceToThemselves(h: Heap, list: nat, parent: map<string, Token>, gas: nat, arith: Arith)
    requires LiteralsFrom(ListAt(h, list), 0) && |ListAt(h, list)| <= gas
    ensures Eval(h, list, parent, gas, arith).outcome == Done(ListAt(h, list))
  {
    var h1 := h.(scopes := h.scopes + [Builtins + parent]);
    assert ListAt(h1, list) == ListAt(h, list);
    LiteralsKept(h1, Frame(list, |h.scopes|, 0, [], Idle), gas, arith);
    assert [] + ListAt(h, list)[0..] == ListAt(h, list);
  }

  lemma LastOnlyOfSuffix(a: seq<Token>, b: seq<Token>)
    requires b != []
    ensures LastOnly(a + b) == LastOnly(b)
  {
  }

  /** After `^`, every later loop head collapses the output to its last element:
      over a run of literals the output ends as the last literal but one (or what was
      there before) followed by the last literal. */
  lemma OverrideRepeats(h: Heap, fr: Frame, gas: nat, arith: Arith)
    requires fr.scope < |h.scopes| && Reduced(fr.ret) && fr.pending == Return
    requires fr.i < |ListAt(h, fr.list)| && LiteralsFrom(ListAt(h, fr.list), fr.i)
    requires |ListAt(h, fr.list)| - fr.i <= gas
    ensures var ts := ListAt(h, fr.list); var n := |ts|;
      Loop(h, fr, gas, arith) == Final(h, Done(LastOnly(fr.ret + ts[fr.i..n - 1]) + [ts[n - 1]]), gas - (n - fr.i))
  {
    var ts, vars := ListAt(h, fr.list), h.scopes[fr.scope];
    LiteralRun(h, fr, gas, arith);
    DrainReturn(fr.ret, vars, ts[fr.i..]);
    assert ts[fr.i..][..|ts| - fr.i - 1] == ts[fr.i..|ts| - 1];
    assert h.(scopes := h.scopes[fr.scope := vars]) == h;
  }

  /** After `name ->`, every later loop head pops the last output token into `name`:
      over a run of literals the output ends as what was there before, less its last
      element, followed by the last literal, and `name` holds the token before that. */
  lemma AssignmentRepeats(h: Heap, fr: Frame, gas: nat, arith: Arith)
    requires fr.scope < |h.scopes| && Reduced(fr.ret) && fr.pending.Assign? && fr.pending.name != ""
    requires fr.i < |ListAt(h, fr.list)| && LiteralsFrom(ListAt(h, fr.list), fr.i)
    requires |ListAt(h, fr.list)| - fr.i <= gas
    ensures var ts := ListAt(h, fr.list); var n := |ts|;
      var vars := Receive(h.scopes[fr.scope], fr.pending.name, fr.ret + ts[fr.i..n - 1]);
      Loop(h, fr, gas, arith) ==
        Final(h.(scopes := h.scopes[fr.scope := vars]), Done(AllButLast(fr.ret) + [ts[n - 1]]), gas - (n - fr.i))
  {
    var ts, vars := ListAt(h, fr.list), h.scopes[fr.scope];
    LiteralRun(h, fr, gas, arith);
    DrainAssign(fr.pending.name, fr.ret, vars, ts[fr.i..]);
    assert ts[fr.i..][..|ts| - fr.i - 1] == ts[fr.i..|ts| - 1];
  }

  // ---- interp as the source writes it: arrays and scopes updated in place

  /** What one iteration of the loop leaves behind: new values of the loop's
      variables, or the value the whole call returns or throws. */
  datatype Next = Continue(i: nat, ret: seq<Token>, pending: Pending, gas: nat) | Stop(outcome: Outcome, gas: nat)

  class Machine {
    var lists: seq<seq<Token>>
    var scopes: seq<map<string, Token>>
    const arith: Arith

    function State(): Heap
      reads this
    {
      Heap(lists, scopes)
    }

    /** The turn of the reference semantics that an iteration leaving `next` behind
        has taken, with the object in its present state. */
    function Taken(list: nat, scope: nat, next: Next): Turn
      reads this
    {
      match next
      case Continue(i, ret, pending, gas) => Again(State(), Frame(list, scope, i, ret, pending), gas)
      case Stop(outcome, gas) => Over(Final(State(), outcome, gas))
    }

    constructor (lists0: seq<seq<Token>>, arith0: Arith)
      ensures State() == Heap(lists0, []) && arith == arith0
    {
      lists := lists0;
      scopes := [];
      arith := arith0;
    }

    /** `interp(tokens, parentVariables)` on the array `list`. */
    method Interp(list: nat, parent: map<string, Token>, gas: nat) returns (r: Outcome, gasLeft: nat)
      modifies this
      ensures Final(State(), r, gasLeft) == Eval(old(State()), list, parent, gas, arith)
      decreases gas, 0
    {
      ghost var goal := Eval(State(), list, parent, gas, arith);
      var scope := |scopes|;
      scopes := scopes + [Builtins + parent];
      var returnTokens: seq<Token> := [];
      var i: nat := 0;
      var settingVariable := Idle;
      var g: nat := gas;
      while i < |ListAt(State(), list)|
        invariant g <= gas && scope < |scopes| && Reduced(returnTokens)
        invariant Loop(State(), Frame(list, scope, i, returnTokens, settingVariable), g, arith) == goal
        decreases g
      {
        if g == 0 {
          return OutOfGas, 0;
        }
        var next := Round(list, scope, i, returnTokens, settingVariable, g);
        match next
        case Stop(outcome, g1) =>
          return outcome, g1;
        case Continue(i1, ret1, pending1, g1) =>
          i, returnTokens, settingVariable, g := i1, ret1, pending1, g1;
      }
      return Done(returnTokens), g;
    }

    /** One iteration of the loop: the check at its head, then the body. */
    method Round(list: nat, scope: nat, i: nat, ret: seq<Token>, pending: Pending, g: nat) returns (next: Next)
      requires scope < |scopes| && Reduced(ret) && i < |ListAt(State(), list)| && g > 0
      modifies this
      ensures next.gas < g && (next.Continue? ==> scope < |scopes| && Reduced(next.ret))
      ensures Taken(list, scope, next) == Iteration(old(State()), Frame(list, scope, i, ret, pending), g - 1, arith)
      decreases g - 1, 3
    {
      ghost var h0 := State();
      var ret' := LoopHead(scope, ret, pending);
      assert ListAt(State(), list) == ListAt(h0, list);
      next := Iterate(list, scope, i, ret', pending, g - 1);
    }

    /** The check at the head of the loop, on `returnTokens` and `variables`. */
    method LoopHead(scope: nat, ret: seq<Token>, pending: Pending) returns (ret': seq<Token>)
      requires scope < |scopes| && Reduced(ret)
      modifies this
      ensures Reduced(ret')
      ensures |scopes| == old(|scopes|) && State() == old(State()).(scopes := old(scopes)[scope := scopes[scope]])
      ensures (ret', scopes[scope]) == Head(pending, ret, old(scopes)[scope])
    {
      ret' := ret;
      if Armed(pending) && |ret| > 0 {
        var last := ret[|ret| - 1];
        if pending.Return? {
          ret' := [last];
        } else {
          scopes := scopes[scope := scopes[scope][pending.name := last]];
          ret' := ret[..|ret| - 1];
        }
      }
    }

    /** The body of the loop after the check at its head. */
    method Iterate(list: nat, scope: nat, i: nat, ret: seq<Token>, pending: Pending, g: nat) returns (next: Next)
      requires scope < |scopes| && Reduced(ret) && i < |ListAt(State(), list)|
      modifies this
      ensures Taken(list, scope, next) == Advance(old(State()), Frame(list, scope, i, ret, pending), g, arith)
      decreases g, 2
    {
      var tokens := lists[list];
      var variables := scopes[scope];
      assert tokens == ListAt(State(), list) && variables == State().scopes[scope];
      match Select(tokens, i)
      case Inline(code) =>
        lists := lists[list := Splice(tokens, i, 1, ListAt(State(), code))];
        return Continue(i, ret, pending, g);
      case SetVariable(name) =>
        scopes := scopes[scope := variables[name := Null]];
        return Continue(i + 2, ret, Assign(name), g);
      case FunctionLiteral(paramList, body) =>
        var names := CollectParams(ListAt(State(), paramList));
        if names.None? {
          return Stop(Thrown("Invalid token inside argument list"), g);
        }
        lists := lists[list := Splice(tokens, i, 3, [Closure(scope, names.value, body)])];
        return Continue(i, ret, pending, g);
      case Invoke(callee, argList) =>
        next := Invoke(list, scope, i, ret, pending, callee, argList, g);
      case ReturnOverride =>
        return Continue(i + 1, ret, Return, g);
      case Lookup(name) =>
        if name !in variables {
          return Stop(Thrown(NotDefined(name)), g);
        }
        lists := lists[list := Splice(tokens, i, 1, [variables[name]])];
        return Continue(i, ret, pending, g);
      case Keep =>
        return Continue(i + 1, ret + [tokens[i]], pending, g);
    }

    /** A call `f (args)` at index `i`: the arguments are reduced by a nested
        `interp`, then a builtin is applied directly or a closure's block is
        reduced in `captured ⊕ params`, and the call site is rewritten. */
    method Invoke(list: nat, scope: nat, i: nat, ret: seq<Token>, pending: Pending,
                  callee: Token, argList: nat, g: nat) returns (next: Next)
      requires list < |lists| && scope < |scopes| && Reduced(ret) && IsFunction(callee)
      modifies this
      ensures Taken(list, scope, next) == Call(old(State()), Frame(list, scope, i, ret, pending), callee, argList, g, arith)
      decreases g, 1
    {
      var args, g1 := Interp(argList, scopes[scope], g);
      if !args.Done? {
        return Stop(args, g1);
      }
      var result: Outcome;
      var g2: nat;
      if callee.Host? {
        result, g2 := HostCall(callee.id, args.tokens, arith), g1;
      } else {
        var functionScopeArgs := BindArgs(callee.params, args.tokens);
        var functionScope := ScopeAt(State(), callee.scope) + functionScopeArgs;
        result, g2 := Interp(callee.body, functionScope, g1);
      }
      if !result.Done? {
        return Stop(result, g2);
      }
      lists := lists[list := ReplaceCallSite(ListAt(State(), list), i, result.tokens)];
      return Continue(i, ret, pending, g2);
    }
  }

  // ---- The exported entry point

  /** The arrays of the parsed tree: the array of node j is list j, and a child
      becomes the token that refers to it. */
  function Load(nodes: seq<Lexer.Node>): (lists: seq<seq<Token>>)
    requires Lexer.WellFormed(nodes)
    ensures |lists| == |nodes|
  {
    seq(|nodes|, j requires 0 <= j < |nodes| =>
      seq(|nodes[j].children|, k requires 0 <= k < |nodes[j].children| =>
        TokenOf(nodes, nodes[j].children[k])))
  }

  function TokenOf(nodes: seq<Lexer.Node>, j: nat): Token
    requires j < |nodes|
  {
    match nodes[j].kind
    case Holder => Holder(j)
    case Paren => Paren(j)
    case Block => Block(j)
    case Str => Str(nodes[j].text)
    case Text => Text(nodes[j].text)
    case Number => Number(nodes[j].text)
  }

  /** `plt(code)`, that is `interp(parse(code))`: the outer array `[holder]` is one
      more list, and there are no parent variables. What a program returns holds
      no name and no holder: every one of them was substituted or inlined. */
  function Program(code: string, gas: nat, arith: Arith): (r: Outcome)
    ensures r.Done? ==> Reduced(r.tokens)
  {
    var nodes := Lexer.Lex(code).nodes;
    Eval(Heap(Load(nodes) + [[Holder(0)]], []), |nodes|, map[], gas, arith).outcome
  }

  method Plt(code: string, gas: nat, arith: Arith) returns (r: Outcome)
    ensures r == Program(code, gas, arith)
  {
    var tokens := Lexer.Parse(code);
    var machine := new Machine(Load(tokens) + [[Holder(0)]], arith);
    var gasLeft;
    r, gasLeft := machine.Interp(|tokens|, map[], gas);
  }
}
