/**
  The character-level lexer of plt.js: `topToken` and `parse`.

  `parse` grows a tree of token objects. The tree is kept here as an arena:
  `nodes[0]` is the root holder, and a group names its children by their
  index in the arena. Every child is pushed after its parent, so a child's
  index is larger than its parent's; this is what makes the walk of
  `topToken` terminate.
*/
module Lexer {

  /** The `type` field of a token the lexer builds. */
  datatype Kind = Holder | Paren | Block | Str | Text | Number

  /** Holder, paren and block tokens hold an array in `value`; the others a string. */
  predicate IsGroup(k: Kind) {
    k == Holder || k == Paren || k == Block
  }

  /** One token object: its type, its children (for a group), its text (for a run)
      and its `done` flag. */
  datatype Node = Node(kind: Kind, children: seq<nat>, text: string, done: bool)

  ghost predicate WellFormed(nodes: seq<Node>) {
    && |nodes| > 0
    && nodes[0].kind == Holder
    && forall i, k :: 0 <= i < |nodes| && 0 <= k < |nodes[i].children| ==>
         i < nodes[i].children[k] < |nodes|
  }

  function Last(nodes: seq<Node>, t: nat): nat
    requires WellFormed(nodes) && t < |nodes| && |nodes[t].children| > 0
  {
    nodes[t].children[|nodes[t].children| - 1]
  }

  /** The node `topToken` returns when it starts its walk at `t`: it goes down
      through the last child while that child is not `done`; with
      `needsChildren` it also stops above a last child that is not a group. */
  function Top(nodes: seq<Node>, t: nat, needsChildren: bool): (r: nat)
    requires WellFormed(nodes) && t < |nodes|
    ensures t <= r < |nodes|
    decreases |nodes| - t
  {
    if IsGroup(nodes[t].kind) && |nodes[t].children| > 0 then
      var last := Last(nodes, t);
      if needsChildren && !IsGroup(nodes[last].kind) then t
      else if !nodes[last].done then Top(nodes, last, needsChildren)
      else t
    else t
  }

  /** A group with no open group below it: nothing left to walk into. */
  ghost predicate Innermost(nodes: seq<Node>, p: nat)
    requires WellFormed(nodes) && p < |nodes|
  {
    && IsGroup(nodes[p].kind)
    && (|nodes[p].children| == 0
        || !IsGroup(nodes[Last(nodes, p)].kind)
        || nodes[Last(nodes, p)].done)
  }

  /** The last child of group `p` is a text, number or string run still being extended. */
  ghost predicate OpenRunBelow(nodes: seq<Node>, p: nat)
    requires WellFormed(nodes) && p < |nodes|
  {
    && |nodes[p].children| > 0
    && !IsGroup(nodes[Last(nodes, p)].kind)
    && !nodes[Last(nodes, p)].done
  }

  /** `topToken(tokens, true)` always returns a group, and one with no open group
      below it, so `pushToken` always appends to an array. */
  lemma {:induction false} TopIsGroup(nodes: seq<Node>, t: nat)
    requires WellFormed(nodes) && t < |nodes| && IsGroup(nodes[t].kind)
    ensures Innermost(nodes, Top(nodes, t, true))
    decreases |nodes| - t
  {
    if |nodes[t].children| > 0 {
      var last := Last(nodes, t);
      if IsGroup(nodes[last].kind) && !nodes[last].done {
        TopIsGroup(nodes, last);
      }
    }
  }

  /** `topToken(tokens, false)` is the group `topToken(tokens, true)` found, or the
      open run that is that group's last child, and exactly in that case. */
  lemma {:induction false} TopOpenRun(nodes: seq<Node>, t: nat)
    requires WellFormed(nodes) && t < |nodes| && IsGroup(nodes[t].kind)
    ensures var p := Top(nodes, t, true);
      Top(nodes, t, false) == if OpenRunBelow(nodes, p) then Last(nodes, p) else p
    decreases |nodes| - t
  {
    TopIsGroup(nodes, t);
    if |nodes[t].children| > 0 {
      var last := Last(nodes, t);
      if IsGroup(nodes[last].kind) && !nodes[last].done {
        TopOpenRun(nodes, last);
      }
    }
  }

  /** Top depends only on kinds, children and `done` flags, not on the runs' text. */
  ghost predicate SameShape(a: seq<Node>, b: seq<Node>) {
    && |a| == |b|
    && forall i :: 0 <= i < |a| ==>
         a[i].kind == b[i].kind && a[i].children == b[i].children && a[i].done == b[i].done
  }

  lemma {:induction false} TopSameShape(a: seq<Node>, b: seq<Node>, t: nat, needsChildren: bool)
    requires WellFormed(a) && WellFormed(b) && SameShape(a, b) && t < |a|
    ensures Top(a, t, needsChildren) == Top(b, t, needsChildren)
    decreases |a| - t
  {
    if IsGroup(a[t].kind) && |a[t].children| > 0 {
      var last := Last(a, t);
      if !(needsChildren && !IsGroup(a[last].kind)) && !a[last].done {
        TopSameShape(a, b, last, needsChildren);
      }
    }
  }

  // ---- The tree updates of the lexer's loop body

  /** `top.done = true` */
  function SetDone(nodes: seq<Node>, k: nat): seq<Node>
    requires k < |nodes|
  {
    nodes[k := nodes[k].(done := true)]
  }

  /** `top.value += char` */
  function Append(nodes: seq<Node>, k: nat, c: char): seq<Node>
    requires k < |nodes|
  {
    nodes[k := nodes[k].(text := nodes[k].text + [c])]
  }

  /** `parent.value.push(token)`: the new token is allocated at the end of the arena. */
  function Push(nodes: seq<Node>, parent: nat, n: Node): seq<Node>
    requires parent < |nodes|
  {
    nodes[parent := nodes[parent].(children := nodes[parent].children + [|nodes|])] + [n]
  }

  /** A freshly created token: no children, not done. */
  function Fresh(kind: Kind, text: string): Node {
    Node(kind, [], text, false)
  }

  /** `!isNaN(char)` for a one-character string: JavaScript converts it to a number,
      which succeeds for a digit and gives 0 for white space or a line terminator. */
  predicate IsNumeric(c: char) {
    || ('0' <= c <= '9')
    || c in {'\t', '\n', '\U{B}', '\U{C}', '\r', ' ', '\U{A0}', '\U{1680}',
             '\U{2000}', '\U{2001}', '\U{2002}', '\U{2003}', '\U{2004}', '\U{2005}',
             '\U{2006}', '\U{2007}', '\U{2008}', '\U{2009}', '\U{200A}',
             '\U{2028}', '\U{2029}', '\U{202F}', '\U{205F}', '\U{3000}', '\U{FEFF}'}
  }

  /** The lexer's variables: the token tree, the `inlineComment` flag, and the
      messages written with `console.error`. */
  datatype LexState = LexState(nodes: seq<Node>, inComment: bool, log: seq<string>)

  /** `[{type: 'holder', value: [], done: false}]`, outside a comment. */
  function Initial(): (s: LexState)
    ensures WellFormed(s.nodes)
  {
    LexState([Fresh(Holder, "")], false, [])
  }

  /** One iteration of the `while (index < code.length)` loop of `parse`, on
      character `c`. */
  function Step(s: LexState, c: char): LexState
    requires WellFormed(s.nodes)
  {
    var nodes := s.nodes;
    var parentTop := Top(nodes, 0, true);
    var top := Top(nodes, 0, false);
    var inString := nodes[top].kind == Str;
    if s.inComment then
      s.(inComment := c != '\n')
    else if !inString && c == '#' then
      s.(inComment := true)
    else if !inString && (c == ' ' || c == '\n') then
      if nodes[top].kind == Text || nodes[top].kind == Number then s.(nodes := SetDone(nodes, top))
      else s
    else if !inString && c == '(' then
      s.(nodes := Push(nodes, parentTop, Fresh(Paren, "")))
    else if !inString && c == ')' then
      if nodes[parentTop].kind == Paren then s.(nodes := SetDone(nodes, parentTop))
      else s.(log := s.log + ["Invalid paren close"])
    else if !inString && c == '{' then
      s.(nodes := Push(nodes, parentTop, Fresh(Block, "")))
    else if !inString && c == '}' then
      if nodes[top].kind == Block then s.(nodes := SetDone(nodes, top))
      else s.(log := s.log + ["Invalid block close"])
    else if c == '\'' then
      if inString then s.(nodes := SetDone(nodes, top))
      else s.(nodes := Push(nodes, parentTop, Fresh(Str, "")))
    else if inString || nodes[top].kind == Number || nodes[top].kind == Text then
      s.(nodes := Append(nodes, top, c))
    else
      s.(nodes := Push(nodes, parentTop, Fresh(if IsNumeric(c) then Number else Text, [c])))
  }

  lemma PushWellFormed(nodes: seq<Node>, parent: nat, n: Node)
    requires WellFormed(nodes) && parent < |nodes| && n.children == []
    ensures WellFormed(Push(nodes, parent, n))
  {
    var r := Push(nodes, parent, n);
    forall i, k | 0 <= i < |r| && 0 <= k < |r[i].children|
      ensures i < r[i].children[k] < |r|
    {
      if i == parent && k == |nodes[parent].children| {
        assert r[i].children[k] == |nodes|;
      } else {
        assert r[i].children[k] == nodes[i].children[k];
      }
    }
  }

  /** Every step keeps the tree well formed: children come after their parents. */
  lemma StepWellFormed(s: LexState, c: char)
    requires WellFormed(s.nodes)
    ensures WellFormed(Step(s, c).nodes)
  {
    var parentTop := Top(s.nodes, 0, true);
    forall kind, text { PushWellFormed(s.nodes, parentTop, Fresh(kind, text)); }
  }

  /** The loop of `parse` over the remaining characters `code`. */
  function Run(s: LexState, code: string): (r: LexState)
    requires WellFormed(s.nodes)
    ensures WellFormed(r.nodes)
    decreases |code|
  {
    if code == [] then s
    else
      StepWellFormed(s, code[0]);
      Run(Step(s, code[0]), code[1..])
  }

  /** The state after `parse(code)` has consumed all of `code`. */
  function Lex(code: string): (r: LexState)
    ensures WellFormed(r.nodes)
  {
    Run(Initial(), code)
  }

  /** Lexing a concatenation is lexing its halves one after the other. */
  lemma {:induction false} RunAppend(s: LexState, a: string, b: string)
    requires WellFormed(s.nodes)
    ensures Run(s, a + b) == Run(Run(s, a), b)
    decreases |a|
  {
    if a != [] {
      assert (a + b)[0] == a[0] && (a + b)[1..] == a[1..] + b;
      StepWellFormed(s, a[0]);
      RunAppend(Step(s, a[0]), a[1..], b);
    } else {
      assert a + b == b;
    }
  }

  // ---- Properties of the step rules

  lemma {:induction false} CommentBody(s: LexState, body: string)
    requires WellFormed(s.nodes) && s.inComment && '\n' !in body
    ensures Run(s, body + ['\n']) == s.(inComment := false)
    decreases |body|
  {
    if body != [] {
      assert (body + ['\n'])[1..] == body[1..] + ['\n'];
      CommentBody(Step(s, body[0]), body[1..]);
    }
  }

  /** Outside a string, `#` and everything up to and including the next newline
      leave the state as it was: the tree is untouched, so the newline ending the
      comment does not end an open text or number run. */
  lemma CommentSkipped(s: LexState, body: string)
    requires WellFormed(s.nodes) && !s.inComment
    requires s.nodes[Top(s.nodes, 0, false)].kind != Str
    requires '\n' !in body
    ensures Run(s, ['#'] + body + ['\n']) == s
  {
    assert (['#'] + body + ['\n'])[0] == '#';
    assert (['#'] + body + ['\n'])[1..] == body + ['\n'];
    CommentBody(s.(inComment := true), body);
  }

  /** Characters that neither white space, a comment, a delimiter nor a quote claim. */
  predicate Plain(c: char) {
    c !in {' ', '\n', '#', '(', ')', '{', '}', '\''}
  }

  /** What an open run of this kind absorbs: a string takes everything but a quote,
      a text or number run only plain characters. */
  predicate Absorbs(kind: Kind, c: char) {
    if kind == Str then c != '\'' else (kind == Text || kind == Number) && Plain(c)
  }

  /** One absorbed character is appended to the innermost token, and nothing else changes. */
  lemma StepAbsorbs(s: LexState, c: char)
    requires WellFormed(s.nodes) && !s.inComment
    requires Absorbs(s.nodes[Top(s.nodes, 0, false)].kind, c)
    ensures Step(s, c) == s.(nodes := Append(s.nodes, Top(s.nodes, 0, false), c))
  {
  }

  /** Characters an open run absorbs are appended to it verbatim, and the run
      stays the innermost token. Inside a string this covers white space, `#`
      and delimiters. */
  lemma {:induction false} AppendsToOpenRun(s: LexState, body: string)
    requires WellFormed(s.nodes) && !s.inComment
    requires forall k :: 0 <= k < |body| ==> Absorbs(s.nodes[Top(s.nodes, 0, false)].kind, body[k])
    ensures var t := Top(s.nodes, 0, false);
      Run(s, body) == s.(nodes := s.nodes[t := s.nodes[t].(text := s.nodes[t].text + body)])
    decreases |body|
  {
    var t := Top(s.nodes, 0, false);
    if body == [] {
      assert s.nodes[t].text + body == s.nodes[t].text;
      assert s.nodes[t := s.nodes[t].(text := s.nodes[t].text + body)] == s.nodes;
    } else {
      var s1 := Step(s, body[0]);
      StepAbsorbs(s, body[0]);
      assert SameShape(s.nodes, s1.nodes);
      StepWellFormed(s, body[0]);
      TopSameShape(s.nodes, s1.nodes, 0, false);
      AppendsToOpenRun(s1, body[1..]);
      assert s1.nodes[t].text + body[1..] == s.nodes[t].text + body;
      assert s1.nodes[t := s1.nodes[t].(text := s1.nodes[t].text + body[1..])]
          == s.nodes[t := s.nodes[t].(text := s.nodes[t].text + body)];
    }
  }

  /** Whatever `pushToken` appends becomes the innermost token
      (`topToken(tokens, false)`), so the next character goes into it. */
  lemma {:induction false} PushedIsTop(nodes: seq<Node>, t: nat, n: Node)
    requires WellFormed(nodes) && t < |nodes| && IsGroup(nodes[t].kind)
    requires n.children == [] && !n.done
    ensures var p := Top(nodes, t, true);
      WellFormed(Push(nodes, p, n)) && Top(Push(nodes, p, n), t, false) == |nodes|
    decreases |nodes| - t
  {
    var p := Top(nodes, t, true);
    PushWellFormed(nodes, p, n);
    var r := Push(nodes, p, n);
    if t == p {
      assert Last(r, t) == |nodes|;
    } else {
      var last := Last(nodes, t);
      assert r[t] == nodes[t];
      assert r[last].kind == nodes[last].kind && r[last].done == nodes[last].done;
      PushedIsTop(nodes, last, n);
    }
  }

  /** Once a token other than the root is marked `done`, the walk of `topToken`
      no longer stops at it: it stops at the group above it or earlier. */
  lemma {:induction false} DoneLeavesWalk(nodes: seq<Node>, u: nat, t: nat, needsChildren: bool)
    requires WellFormed(nodes) && u < |nodes| && Top(nodes, u, needsChildren) == t && u != t
    ensures WellFormed(SetDone(nodes, t)) && Top(SetDone(nodes, t), u, needsChildren) != t
    decreases |nodes| - u
  {
    var r := SetDone(nodes, t);
    assert forall i :: 0 <= i < |r| ==> r[i].children == nodes[i].children;
    var last := Last(nodes, u);
    assert r[u] == nodes[u] && Last(r, u) == last && r[last].kind == nodes[last].kind;
    if last != t {
      DoneLeavesWalk(nodes, last, t, needsChildren);
    }
  }

  /** A space or a newline outside a string ends an open text or number run: the
      run is marked `done`, so the next character no longer goes into it. */
  lemma SpaceEndsRun(s: LexState, c: char)
    requires WellFormed(s.nodes) && !s.inComment && (c == ' ' || c == '\n')
    requires var k := s.nodes[Top(s.nodes, 0, false)].kind; k == Text || k == Number
    ensures var t := Top(s.nodes, 0, false);
      Step(s, c) == s.(nodes := SetDone(s.nodes, t)) && Top(Step(s, c).nodes, 0, false) != t
  {
    DoneLeavesWalk(s.nodes, 0, Top(s.nodes, 0, false), false);
  }

  /** A quote inside a string closes that string. */
  lemma QuoteEndsString(s: LexState)
    requires WellFormed(s.nodes) && !s.inComment && s.nodes[Top(s.nodes, 0, false)].kind == Str
    ensures var t := Top(s.nodes, 0, false);
      Step(s, '\'') == s.(nodes := SetDone(s.nodes, t)) && Top(Step(s, '\'').nodes, 0, false) != t
  {
    DoneLeavesWalk(s.nodes, 0, Top(s.nodes, 0, false), false);
  }

  /** `)` outside a string closes the innermost open group when it is a paren, even
      when a text or number run is still open inside it; afterwards `topToken`
      stops at neither kind of top at all. */
  lemma ParenCloses(s: LexState)
    requires WellFormed(s.nodes) && !s.inComment && s.nodes[Top(s.nodes, 0, false)].kind != Str
    requires s.nodes[Top(s.nodes, 0, true)].kind == Paren
    ensures var p := Top(s.nodes, 0, true); var r := Step(s, ')').nodes;
      Step(s, ')') == s.(nodes := SetDone(s.nodes, p)) &&
      WellFormed(r) && Top(r, 0, true) != p && Top(r, 0, false) != p
  {
    var p := Top(s.nodes, 0, true);
    DoneLeavesWalk(s.nodes, 0, p, true);
    TopOpenRun(SetDone(s.nodes, p), 0);
  }

  /** `}` outside a string closes a block only when the block itself is the
      innermost token, and then the block is left. */
  lemma BlockCloses(s: LexState)
    requires WellFormed(s.nodes) && !s.inComment && s.nodes[Top(s.nodes, 0, false)].kind == Block
    ensures var t := Top(s.nodes, 0, false);
      Step(s, '}') == s.(nodes := SetDone(s.nodes, t)) && Top(Step(s, '}').nodes, 0, false) != t
  {
    DoneLeavesWalk(s.nodes, 0, Top(s.nodes, 0, false), false);
  }

  /** `(` and `{` outside a string push a fresh paren or block into the innermost
      open group, and the new group becomes the innermost token. */
  lemma OpenPushesGroup(s: LexState, c: char)
    requires WellFormed(s.nodes) && !s.inComment && (c == '(' || c == '{')
    requires s.nodes[Top(s.nodes, 0, false)].kind != Str
    ensures var n := Fresh(if c == '(' then Paren else Block, ""); var r := Step(s, c).nodes;
      Step(s, c) == s.(nodes := Push(s.nodes, Top(s.nodes, 0, true), n)) &&
      WellFormed(r) && Top(r, 0, false) == |s.nodes|
  {
    PushedIsTop(s.nodes, 0, Fresh(if c == '(' then Paren else Block, ""));
  }

  /** A quote outside a string pushes a fresh, empty string token, which becomes
      the innermost token. */
  lemma QuoteStartsString(s: LexState)
    requires WellFormed(s.nodes) && !s.inComment && s.nodes[Top(s.nodes, 0, false)].kind != Str
    ensures var r := Step(s, '\'').nodes;
      Step(s, '\'') == s.(nodes := Push(s.nodes, Top(s.nodes, 0, true), Fresh(Str, ""))) &&
      WellFormed(r) && Top(r, 0, false) == |s.nodes|
  {
    PushedIsTop(s.nodes, 0, Fresh(Str, ""));
  }

  /** A plain character with no open run to take it starts a run of its own: a
      number when `isNaN(char)` is false, a text otherwise. The run becomes the
      innermost token. */
  lemma PlainStartsRun(s: LexState, c: char)
    requires WellFormed(s.nodes) && !s.inComment && Plain(c)
    requires IsGroup(s.nodes[Top(s.nodes, 0, false)].kind)
    ensures var n := Fresh(if IsNumeric(c) then Number else Text, [c]); var r := Step(s, c).nodes;
      Step(s, c) == s.(nodes := Push(s.nodes, Top(s.nodes, 0, true), n)) &&
      WellFormed(r) && Top(r, 0, false) == |s.nodes|
  {
    PushedIsTop(s.nodes, 0, Fresh(if IsNumeric(c) then Number else Text, [c]));
  }

  // ---- `{x}` and `{x }`, character by character

  function OpenBlock(): seq<Node> {
    [Node(Holder, [1], "", false), Node(Block, [], "", false)]
  }

  function NameInBlock(nameDone: bool): seq<Node> {
    [Node(Holder, [1], "", false), Node(Block, [2], "", false), Node(Text, [], "x", nameDone)]
  }

  lemma BlockOpened()
    ensures WellFormed(OpenBlock()) && Step(Initial(), '{') == LexState(OpenBlock(), false, [])
  {
    var n0 := Initial().nodes;
    assert Top(n0, 0, true) == 0 && Top(n0, 0, false) == 0;
    assert n0[0].children + [|n0|] == [1];
    assert Push(n0, 0, Fresh(Block, "")) == OpenBlock();
  }

  lemma NameStarted()
    ensures WellFormed(OpenBlock()) && WellFormed(NameInBlock(false))
    ensures Step(LexState(OpenBlock(), false, []), 'x') == LexState(NameInBlock(false), false, [])
  {
    var n1 := OpenBlock();
    assert Top(n1, 1, true) == 1;
    assert Top(n1, 0, true) == 1 && Top(n1, 0, false) == 1;
    assert n1[1].children + [|n1|] == [2];
    assert Push(n1, 1, Fresh(Text, ['x'])) == NameInBlock(false);
  }

  lemma TopOfName(nameDone: bool)
    ensures WellFormed(NameInBlock(nameDone))
    ensures Top(NameInBlock(nameDone), 0, false) == if nameDone then 1 else 2
  {
    var n := NameInBlock(nameDone);
    assert Last(n, 0) == 1 && Last(n, 1) == 2;
    assert Top(n, 1, false) == if nameDone then 1 else 2;
  }

  lemma CloseAfterName()
    ensures WellFormed(NameInBlock(false))
    ensures Step(LexState(NameInBlock(false), false, []), '}') == LexState(NameInBlock(false), false, ["Invalid block close"])
  {
    TopOfName(false);
  }

  lemma SpaceAfterName()
    ensures WellFormed(NameInBlock(false))
    ensures Step(LexState(NameInBlock(false), false, []), ' ') == LexState(NameInBlock(true), false, [])
  {
    TopOfName(false);
    assert SetDone(NameInBlock(false), 2) == NameInBlock(true);
  }

  lemma CloseAfterSpace()
    ensures WellFormed(NameInBlock(true))
    ensures Step(LexState(NameInBlock(true), false, []), '}') == LexState(SetDone(NameInBlock(true), 1), false, [])
  {
    TopOfName(true);
  }

  /** `}` right after a name does not close the block: the name's run is the
      innermost token, so the block is left open and the brace is logged as
      unmatched. */
  lemma BlockOpenAfterName()
    ensures Lex("{x}") == LexState(NameInBlock(false), false, ["Invalid block close"])
  {
    BlockOpened();
    NameStarted();
    CloseAfterName();
    assert "{x}"[1..] == "x}" && "x}"[1..] == "}" && "}"[1..] == [];
    var s1, s2 := LexState(OpenBlock(), false, []), LexState(NameInBlock(false), false, []);
    assert Run(s2, "}") == Step(s2, '}');
    assert Run(s1, "x}") == Run(s2, "}");
  }

  /** A space between the name and `}` ends the name's run first, and then `}`
      closes the block. */
  lemma BlockClosedAfterSpace()
    ensures Lex("{x }") == LexState([Node(Holder, [1], "", false), Node(Block, [2], "", true), Node(Text, [], "x", true)], false, [])
  {
    BlockOpened();
    NameStarted();
    SpaceAfterName();
    CloseAfterSpace();
    assert "{x }"[1..] == "x }" && "x }"[1..] == " }" && " }"[1..] == "}" && "}"[1..] == [];
    var s1, s2 := LexState(OpenBlock(), false, []), LexState(NameInBlock(false), false, []);
    var s3 := LexState(NameInBlock(true), false, []);
    assert Run(s3, "}") == Step(s3, '}');
    assert Run(s2, " }") == Run(s3, "}");
    assert Run(s1, "x }") == Run(s2, " }");
  }

  /** A close delimiter with nothing to close only logs an error: the tree and
      the comment flag are unchanged. */
  lemma UnmatchedCloseKeepsTree(s: LexState, c: char)
    requires WellFormed(s.nodes) && !s.inComment && (c == ')' || c == '}')
    requires s.nodes[Top(s.nodes, 0, false)].kind != Str
    requires c == ')' ==> s.nodes[Top(s.nodes, 0, true)].kind != Paren
    requires c == '}' ==> s.nodes[Top(s.nodes, 0, false)].kind != Block
    ensures Step(s, c).nodes == s.nodes && !Step(s, c).inComment
    ensures Step(s, c).log == s.log + [if c == ')' then "Invalid paren close" else "Invalid block close"]
  {
  }

  // ---- The lexer as the source writes it: an object updated in place

  class Lexer {
    var tokens: seq<Node>
    var inlineComment: bool
    var log: seq<string>

    ghost predicate Valid()
      reads this
    {
      WellFormed(tokens)
    }

    function State(): LexState
      reads this
    {
      LexState(tokens, inlineComment, log)
    }

    constructor ()
      ensures Valid() && State() == Initial()
    {
      tokens := [Fresh(Holder, "")];
      inlineComment := false;
      log := [];
    }

    /** `topToken(tokens, needsChildren)`: the walk down the last children. */
    method TopToken(needsChildren: bool) returns (t: nat)
      requires Valid()
      ensures t < |tokens| && t == Top(tokens, 0, needsChildren)
    {
      t := 0;
      while true
        invariant t < |tokens| && Top(tokens, t, needsChildren) == Top(tokens, 0, needsChildren)
        decreases |tokens| - t
      {
        var token := tokens[t];
        if IsGroup(token.kind) && |token.children| > 0 {
          var last := token.children[|token.children| - 1];
          if needsChildren && !IsGroup(tokens[last].kind) {
            return;
          }
          if !tokens[last].done {
            t := last;
            continue;
          }
        }
        return;
      }
    }

    /** `pushToken(token)`: append to the array of `topToken(tokens, true)`. */
    method PushToken(token: Node)
      requires Valid() && token.children == []
      modifies this
      ensures Valid()
      ensures tokens == Push(old(tokens), Top(old(tokens), 0, true), token)
      ensures inlineComment == old(inlineComment) && log == old(log)
    {
      var parent := TopToken(true);
      PushWellFormed(tokens, parent, token);
      tokens := tokens[parent := tokens[parent].(children := tokens[parent].children + [|tokens|])] + [token];
    }

    /** The body of the loop of `parse`, for one character. */
    method Consume(c: char)
      requires Valid()
      modifies this
      ensures Valid() && State() == Step(old(State()), c)
    {
      StepWellFormed(State(), c);
      var parentTop := TopToken(true);
      var top := TopToken(false);

      if inlineComment {
        if c == '\n' {
          inlineComment := false;
        }
        return;
      } else if tokens[top].kind != Str && c == '#' {
        inlineComment := true;
        return;
      }

      if c == ' ' || c == '\n' {
        if tokens[top].kind != Str {
          if tokens[top].kind == Text || tokens[top].kind == Number {
            tokens := tokens[top := tokens[top].(done := true)];
          }
          return;
        }
      }

      if c == '(' {
        if tokens[top].kind != Str {
          PushToken(Fresh(Paren, ""));
          return;
        }
      }

      if c == ')' {
        if tokens[top].kind != Str {
          if tokens[parentTop].kind == Paren {
            tokens := tokens[parentTop := tokens[parentTop].(done := true)];
          } else {
            log := log + ["Invalid paren close"];
          }
          return;
        }
      }

      if c == '{' {
        if tokens[top].kind != Str {
          PushToken(Fresh(Block, ""));
          return;
        }
      }

      if c == '}' {
        if tokens[top].kind != Str {
          if tokens[top].kind == Block {
            tokens := tokens[top := tokens[top].(done := true)];
          } else {
            log := log + ["Invalid block close"];
          }
          return;
        }
      }

      if c == '\'' {
        if tokens[top].kind == Str {
          tokens := tokens[top := tokens[top].(done := true)];
        } else {
          PushToken(Fresh(Str, ""));
        }
        return;
      }

      if tokens[top].kind == Str || tokens[top].kind == Number || tokens[top].kind == Text {
        tokens := tokens[top := tokens[top].(text := tokens[top].text + [c])];
      } else if IsNumeric(c) {
        PushToken(Fresh(Number, [c]));
      } else {
        PushToken(Fresh(Text, [c]));
      }
    }
  }

  /** `parse(code)`: the token tree; node 0 is the root holder. */
  method Parse(code: string) returns (tokens: seq<Node>)
    ensures WellFormed(tokens) && tokens == Lex(code).nodes
  {
    var lexer := new Lexer();
    var index := 0;
    while index < |code|
      invariant 0 <= index <= |code|
      invariant lexer.Valid()
      invariant Run(lexer.State(), code[index..]) == Lex(code)
    {
      assert code[index..][0] == code[index] && code[index..][1..] == code[index + 1..];
      lexer.Consume(code[index]);
      index := index + 1;
    }
    tokens := lexer.tokens;
  }
}
