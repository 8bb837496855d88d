# plt.js in Dafny

plt.js is a small scripting language in one JavaScript file. `plt(code)` is
`interp(parse(code))`:

- `parse` is a character-level lexer. It builds a tree of token objects: a root
  `holder`; `paren` and `block` groups; and `string`, `text` and `number` runs.
  Each token has a `done` flag. `topToken` finds the insertion point by walking
  down through the last child while that child is not `done`.
- `interp` reduces a token array in place, left to right, with a working index
  `i`. It keeps an output list `returnTokens`, a pending-assignment slot
  `settingVariable` and a `variables` object. Its rules are: holder inlining,
  `name -> value`, `fn (params) {body}`, calls, the `^` return override, and
  variable substitution.

The model has two modules.

`lexer.dfy` (module `Lexer`) keeps the tree as an arena `seq<Node>`. A group
names its children by index, and every child comes after its parent
(`WellFormed`). The lexer is modelled twice:

- as functions: `Top` is `topToken`, `Step` is one pass of the loop of `parse`,
  `Run` and `Lex` fold `Step`;
- as the source writes it: a class `Lexer` whose methods `TopToken`, `PushToken`
  and `Consume` update its fields in place, and a method `Parse` with the
  `while` loop. Each method is proved equal to its function (`Parse` returns
  `Lex(code).nodes`).

`interp.dfy` (module `Interp`) keeps JavaScript's sharing of objects.

- A `Heap` holds every token array (`lists`) and every `variables` object
  (`scopes`).
- A paren, block or holder token refers to its array by index, and a function
  expression refers to the scope it captured by index.
- So `interp` splices the very array it was given, and a closure sees later
  `->` writes to the scope it was made in.

The reference semantics are the mutually recursive functions `Eval` (one
`interp` call), `Loop`, `Iteration`, `Advance` (one rule) and `Call`/`Apply`.
A `gas` budget bounds them, because `interp` need not terminate. The class
`Machine` holds the heap as fields and runs the source's `while` loop. Its
method `Interp` is proved to end in the state and outcome `Eval` gives.

Builtins are opaque host functions. `Arith` stands for the floating-point
arithmetic of `add` … `mod`, and `print` returns `undefined`.

Details of plt.js the model keeps:

- Only space and newline are white space to the lexer; a tab is an ordinary
  character.
- A run starts as a number when `isNaN(char)` is false. That holds for digits
  and also for every JavaScript white-space or line-terminator character
  (`IsNumeric`), so a tab starts a number run.
- There are no objects, no `.`/`=>`, no `if`/`ifel` and no boxed cells. A
  variable is a key of the shared `variables` object.
- A missing argument is bound to `null`.
- `^` is an override only when some token follows it. The slot it sets is never
  cleared, so it collapses the output again at every later loop head.
- A trailing `^` is looked up as a variable, and throws when `^` is unbound.

## Model

| member | source | states |
|---|---|---|
| Lexer.Top | plt.js:65-81 | the walk of `topToken` ends at a node at or below where it started, inside the tree |
| Lexer.TopIsGroup | plt.js:65-88 | `topToken(tokens, true)` always returns a group with no open group as its last child, so `pushToken` always pushes into an array |
| Lexer.TopOpenRun | plt.js:65-81 | `topToken(tokens, false)` is the group `topToken(tokens, true)` finds, or that group's last child exactly when the child is an open text, number or string run |
| Lexer.TopSameShape | plt.js:65-81 | `topToken` depends only on kinds, children and `done` flags, not on the text of runs |
| Lexer.DoneLeavesWalk | plt.js:74-77 | when the walk of `topToken` from a node stopped below it at token `t`, marking `t` done makes that walk stop elsewhere |
| Lexer.PushedIsTop | plt.js:86-88 | the token `pushToken` appends becomes `topToken(tokens, false)`, so the next character goes into it |
| Lexer.PushWellFormed | plt.js:86-88 | pushing a fresh token keeps every child after its parent |
| Lexer.Initial | plt.js:84 | the initial tree, a lone holder, is well formed |
| Lexer.StepWellFormed | plt.js:92-193 | every iteration of the loop of `parse` keeps the tree well formed |
| Lexer.Run | plt.js:92-193 | the loop over the remaining characters keeps the tree well formed |
| Lexer.Lex | plt.js:83-196 | the tree `parse` returns is well formed |
| Lexer.RunAppend | plt.js:92-193 | lexing `a + b` is lexing `a` and then `b` from the state `a` left |
| Lexer.CommentBody | plt.js:99-105 | inside a comment every character up to the newline is skipped, and the newline only ends the comment |
| Lexer.CommentSkipped | plt.js:99-112 | outside a string, `#`, the comment text and its newline leave the whole state unchanged, so that newline does not end an open run |
| Lexer.StepAbsorbs | plt.js:181-183 | a character an open run accepts is appended to the innermost token and nothing else changes |
| Lexer.AppendsToOpenRun | plt.js:181-183 | characters an open run accepts are appended verbatim in order, including white space, `#` and delimiters inside a string |
| Lexer.SpaceEndsRun | plt.js:114-121 | a space or newline outside a string marks an open text or number run `done`, and the next character no longer goes into it |
| Lexer.QuoteEndsString | plt.js:169-174 | a quote inside a string marks that string `done`, and `topToken` leaves it |
| Lexer.ParenCloses | plt.js:134-139 | `)` outside a string marks the innermost open group done when it is a paren, even with a run open inside it, and `topToken` leaves it |
| Lexer.BlockCloses | plt.js:156-161 | `}` outside a string marks the block done when the block itself is the innermost token, and `topToken` leaves it |
| Lexer.OpenPushesGroup | plt.js:125-154 | `(` or `{` outside a string pushes a fresh paren or block into the innermost open group, and it becomes the innermost token |
| Lexer.QuoteStartsString | plt.js:169-178 | a quote outside a string pushes a fresh empty string, and it becomes the innermost token |
| Lexer.PlainStartsRun | plt.js:184-190 | a plain character with no open run starts a number run exactly when `isNaN(char)` is false and a text run otherwise, and the run becomes the innermost token |
| Lexer.BlockOpenAfterName | plt.js:156-166 | `{x}` leaves the block open and logs "Invalid block close" |
| Lexer.BlockClosedAfterSpace | plt.js:114-166 | `{x }` marks both the name and the block done, with nothing logged |
| Lexer.UnmatchedCloseKeepsTree | plt.js:134-166 | an unmatched `)` or `}` only logs its message; the tree and the comment flag are unchanged |
| Lexer.Lexer.constructor | plt.js:84 | the new lexer holds the initial tree |
| Lexer.Lexer.TopToken | plt.js:65-81 | the loop of `topToken` returns the node `Top` defines |
| Lexer.Lexer.PushToken | plt.js:86-88 | appends the token to `topToken(tokens, true)`; the rest of the state is unchanged |
| Lexer.Lexer.Consume | plt.js:93-192 | one pass of the loop body updates the object to exactly `Step` of its old state |
| Lexer.Parse | plt.js:83-196 | the `while` loop of `parse` returns the well-formed tree `Lex` defines |
| Interp.Defined | plt.js:25-27 | `filter(isDefined)` is non-empty exactly when some entry is not `undefined` (`null` counts as defined), and keeps only entries of its input |
| Interp.DefinedAppend | plt.js:319 | filtering a concatenation is concatenating the filtered halves |
| Interp.CallSiteKeepsDefined | plt.js:319-323 | removing the call site when no result is defined gives the same defined tokens as splicing the result in |
| Interp.ToFunctionResult | plt.js:33-47 | a callback's non-array result becomes a one-element array, which holds a defined entry exactly when the result is not `undefined`; so a call site whose callback returns `undefined` is deleted |
| Interp.HostCall | plt.js:366-410 | a builtin returns exactly one value, and throws exactly when `print`'s first argument or an arithmetic builtin's first two arguments are `null` or missing |
| Interp.HostResults | plt.js:367-410 | `print` yields nothing defined, so its call site is deleted; arithmetic yields one number |
| Interp.Select | plt.js:230-350 | a token goes to the output exactly when it is no holder, no name and no function expression before a paren; a lookup is always of the text token at `i` |
| Interp.ParamNames | plt.js:264-271 | the parameter list gives names exactly when all entries are text tokens, in order and one per entry |
| Interp.CollectParams | plt.js:264-271 | the `for` loop over the parameter list computes `ParamNames` |
| Interp.BindParams | plt.js:303-309 | the parameter scope has exactly the parameter names as keys |
| Interp.BindParamsByPosition | plt.js:306-309 | each parameter gets the argument at its position, or `null` past the end of the arguments; extra arguments are ignored |
| Interp.BindArgs | plt.js:304-309 | the `for` loop over the parameters computes `BindParams` |
| Interp.Eval | plt.js:198-217 | `interp` works on a fresh scope `builtins ⊕ parentVariables`: no scope that existed before is changed, no array is added, and a normal result holds no name and no holder |
| Interp.Apply | plt.js:296-317 | calling a builtin or a closure leaves every existing scope unchanged, since the closure's body runs in a fresh copy `captured ⊕ params` |
| Interp.Loop | plt.js:217-355 | the loop of one `interp` call changes no scope but its own and adds no array; a normal result holds no name and no holder |
| Interp.Iteration | plt.js:222-354 | one iteration keeps the frame's array and scope and spends no gas it does not have; leaving the loop early is never a normal return; a slot once set is never reset to `null` |
| Interp.Advance | plt.js:230-354 | after the loop-head check, a rule keeps the frame's array and scope and changes no other scope; leaving the loop early is never a normal return; no rule resets a set slot to `null` |
| Interp.Call | plt.js:284-326 | a call goes on at the same index with the same loop variables, changes no scope but the caller's own, and only a throw or running out of gas leaves the loop |
| Interp.HolderInlined | plt.js:230-243 | a holder is replaced in place by the tokens of its own array, and `i` stays |
| Interp.AssignmentArms | plt.js:245-255 | `name ->` binds `name` to `null` in the current scope at once, arms the slot with `name` and skips both tokens |
| Interp.FunctionLiteralCaptures | plt.js:257-282 | `fn (params) {body}` becomes one function expression that refers to the current scope object itself, the names in order and the block; a non-name parameter throws "Invalid token inside argument list" |
| Interp.CallSpliced | plt.js:292-325 | a throw in the arguments or the callee leaves the loop with it; otherwise the call site of the array as it is after both calls becomes `ts[..i] + result + ts[i+2..]` when some result entry is defined and `ts[..i] + ts[i+2..]` otherwise, and `i` stays |
| Interp.CallRecognised | plt.js:284-289 | a function expression followed by a paren is a call |
| Interp.NameSubstituted | plt.js:336-350 | a bound name is replaced in place by its value and `i` stays; an unbound name throws "Variable … is not defined" |
| Interp.OverrideArms | plt.js:328-334 | `^` followed by a token arms the slot with the return marker and moves past the `^` |
| Interp.TrailingCaretThrows | plt.js:328-349 | a `^` with nothing after it is looked up as a name, and throws "Variable ^ is not defined" when `^` is unbound |
| Interp.LiteralKept | plt.js:352-354 | a literal is pushed to the output and `i` moves past it |
| Interp.LoopOverLiteral | plt.js:222-354 | an iteration over a literal is the loop-head check followed by the push |
| Interp.LiteralRun | plt.js:217-355 | over a run of literals to the end of the array, the loop returns normally with the output and scope the repeated loop-head check gives, one unit of gas per literal |
| Interp.DrainIdle | plt.js:222 | with the slot unarmed, literals are appended to the output and the scope is left alone |
| Interp.DrainReturn | plt.js:222-224 | with the return marker, the output ends as the last token before the last literal, then the last literal |
| Interp.DrainAssign | plt.js:222-227 | with a name in the slot, the output loses its last token for good, and the name ends holding the last token before the last literal |
| Interp.LiteralsKept | plt.js:352-354 | with the slot unarmed, literals go to the output one by one and the heap is unchanged |
| Interp.LiteralsReduceToThemselves | plt.js:210-361 | an array of literals reduces to itself |
| Interp.OverrideRepeats | plt.js:222-224 | after `^`, over a run of literals to the end of the array, the output collapses again at every loop head, ending as the last token before the last literal, then the last literal |
| Interp.AssignmentRepeats | plt.js:222-227 | after `name ->`, over a run of literals to the end of the array, the last output token is popped into `name` at every loop head: the output loses its last token and `name` ends holding the last token before the last literal |
| Interp.Machine.Interp | plt.js:198-362 | the `while` loop over the object's arrays and scopes ends in the state and outcome `Eval` gives |
| Interp.Machine.Round | plt.js:222-354 | one pass of the loop updates the object and loop variables as `Iteration` does, spending gas |
| Interp.Machine.LoopHead | plt.js:222-228 | the check at the loop head changes only the frame's scope, as `Head` does |
| Interp.Machine.Iterate | plt.js:230-354 | the body after the check updates the state and the loop variables as `Advance` does |
| Interp.Machine.Invoke | plt.js:284-326 | the call rule with nested `interp` calls updates the state as `Call` does |
| Interp.Program | plt.js:421-423 | a normal result of `plt(code)` holds no name and no holder |
| Interp.Plt | plt.js:421-423 | `plt(code)` parses, loads the tree into arrays and runs the machine, with the result `Program` gives |

## Left out

- The arithmetic of `add`, `subtract`, `multiply`, `divide`, `exp` and `mod` (plt.js:374-409) is floating point on `parseFloat`; it is the parameter `arith`, and the number it produces is kept as text.
- `print`'s output and `_console`/`init` (plt.js:367-373, 412-418) are I/O; only the fact that `print` returns `undefined` is modelled.
- The `es7-shim` loading (plt.js:7-10) and the module and global export code (plt.js:424-434) are platform plumbing.
- `printTokens` (plt.js:49-63) and the unused `deepEqual` (plt.js:14-21) are debug helpers.
- `isUndefined` (plt.js:29-31) is never called.
- The branch of `interp` that wraps a single token into an array (plt.js:205-207) cannot be reached from `parse` or from the rules, which always pass arrays.
- `name in variables` also finds prototype members such as `toString` (plt.js:342); scopes here are plain maps.
- The `console.log` of the scope before the undefined-variable throw (plt.js:347) is output only.
- `console.error` for an unmatched delimiter is recorded in the lexer's `log` rather than written out.
- Strings are sequences of Dafny `char`; JavaScript's UTF-16 code units and surrogate pairs are not distinguished.
- Non-termination and JavaScript stack overflow are replaced by the `gas` budget and the `OutOfGas` outcome.
- OverrideRepeats: the closed form of the repeated collapse is proved only over a run of literals that reaches the end of the array; for every other token, what is proved is that no iteration resets the slot (`Iteration`, `Advance`) and that every iteration starts with the check `Head`.
- AssignmentRepeats: the closed form of the repeated pop is proved only over a run of literals that reaches the end of the array; for every other token, what is proved is that no iteration resets the slot (`Iteration`, `Advance`) and that every iteration starts with the check `Head`.
- Interp.Loop: gives the budget one unit per iteration of any `interp` loop, nested ones included; this unit has no counterpart in the source.
- Interp.Load: its contract states only the number of arrays; the index layout is given by its body.
- An index in a token that points past the heap reads as an empty array or scope; `Load` never makes such a token.
- The exception values a JavaScript builtin throws on `null` arguments are a single message, "TypeError".
