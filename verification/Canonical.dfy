/**
 * The canonical rendering of a condition forest as text, and its inverse reading: the text
 * determines a "shape" in which a mixed node has become two siblings, and nothing more.
 */
module Canonical {
  import opened Wrappers
  import opened Conditions
  import opened Semantics
  import opened Values

  /** How a leaf check prints: with its expected value, or without it in the value-free twin. */
  type LeafText = RuleCondition -> string

  /** The printed connector; unset prints as AND. */
  function ConnectorText(op: Option<string>): string {
    op.GetOr(AND)
  }

  function NodeText(t: Tree, leaf: LeafText): string
    decreases t, 1
  {
    var own := t.cond.attributeId.Some?;
    if t.children == [] then
      if own then leaf(t.cond) else "()"
    else
      var kids := "(" + ForestText(t.children, leaf) + ")";
      if own then leaf(t.cond) + " " + ConnectorText(t.cond.childConnector) + " " + kids else kids
  }

  function ForestText(f: seq<Tree>, leaf: LeafText): string
    decreases f, 0
  {
    if f == [] then ""
    else if |f| == 1 then NodeText(f[0], leaf)
    else NodeText(f[0], leaf) + " " + ConnectorText(f[0].cond.connector) + " " + ForestText(f[1..], leaf)
  }

  /** The value a leaf prints: null when there is none or it does not parse. */
  function PrintedValue(expected: map<string, Raw>, attr: Uuid): Json {
    if attr in expected && expected[attr].Doc? then expected[attr].json else JNull
  }

  /** A leaf with its compacted expected value. `compact` stands for json.Marshal. */
  function ValueLeaf(expected: map<string, Raw>, compact: Json -> string): LeafText {
    (c: RuleCondition) =>
      if c.attributeId.None? then ""
      else c.attributeId.value + " " + c.op + " " + compact(PrintedValue(expected, c.attributeId.value))
  }

  // --------------------------------------------------------------------- shapes

  datatype Shape = Leaf(attr: Uuid, op: string, value: Json) | Unit | Group(items: Chain)

  datatype Chain = One(node: Shape) | Link(node: Shape, isOr: bool, rest: Chain)

  function ShapeText(s: Shape, compact: Json -> string): string {
    match s
    case Leaf(attr, op, v) => attr + " " + op + " " + compact(v)
    case Unit => "()"
    case Group(items) => "(" + ChainText(items, compact) + ")"
  }

  function ChainText(c: Chain, compact: Json -> string): string {
    match c
    case One(n) => ShapeText(n, compact)
    case Link(n, isOr, rest) =>
      ShapeText(n, compact) + " " + (if isOr then OR else AND) + " " + ChainText(rest, compact)
  }

  /** The shape of a forest: a mixed node is split into its own check and its group. */
  function Flat(f: seq<Tree>, expected: map<string, Raw>): Chain
    requires f != []
  {
    var t := f[0];
    var isOr := t.cond.connector == Some(OR);
    var own := t.cond.attributeId;
    var leaf := if own.Some? then Leaf(own.value, t.cond.op, PrintedValue(expected, own.value)) else Unit;
    if t.children == [] then
      if |f| == 1 then One(leaf) else Link(leaf, isOr, Flat(f[1..], expected))
    else
      var group := Group(Flat(t.children, expected));
      var tail := if |f| == 1 then One(group) else Link(group, isOr, Flat(f[1..], expected));
      if own.Some? then Link(leaf, t.cond.childConnector == Some(OR), tail) else tail
  }

  predicate KnownConnector(op: Option<string>) {
    op in {None, Some(AND), Some(OR)}
  }

  const OPERATORS := {"<", "<=", ">", ">=", "=", "!=", "IN", "NOT IN", "BETWEEN", "CONTAINS"}

  /** Every printed connector is AND or OR (or unset) and every operator is a declared one. */
  predicate Printable(f: seq<Tree>) {
    forall t | t in f ::
      && KnownConnector(t.cond.connector) && KnownConnector(t.cond.childConnector)
      && (t.cond.attributeId.Some? ==> t.cond.op in OPERATORS)
      && Printable(t.children)
  }

  predicate WellFormed(c: Chain) {
    match c
    case One(n) => WellFormedShape(n)
    case Link(n, _, rest) => WellFormedShape(n) && WellFormed(rest)
  }

  predicate WellFormedShape(s: Shape) {
    match s
    case Leaf(_, op, _) => op in OPERATORS
    case Unit => true
    case Group(items) => WellFormed(items)
  }

  /** The renderer prints exactly the shape. */
  lemma {:induction false} TextOfShape(f: seq<Tree>, expected: map<string, Raw>, compact: Json -> string)
    requires f != [] && Printable(f)
    ensures ForestText(f, ValueLeaf(expected, compact)) == ChainText(Flat(f, expected), compact)
  {
    var t := f[0];
    assert t in f;
    if t.children != [] {
      TextOfShape(t.children, expected, compact);
    }
    if |f| > 1 {
      assert forall u | u in f[1..] :: u in f;
      TextOfShape(f[1..], expected, compact);
    }
    if t.children != [] && t.cond.attributeId.Some? {
      MixedText(f, expected, compact);
    } else {
      PlainText(f, expected, compact);
    }
  }

  lemma {:induction false} ShapeIsWellFormed(f: seq<Tree>, expected: map<string, Raw>)
    requires f != [] && Printable(f)
    ensures WellFormed(Flat(f, expected))
  {
    var t := f[0];
    assert t in f;
    if t.children != [] {
      ShapeIsWellFormed(t.children, expected);
    }
    if |f| > 1 {
      assert forall u | u in f[1..] :: u in f;
      ShapeIsWellFormed(f[1..], expected);
    }
  }

  lemma PlainText(f: seq<Tree>, expected: map<string, Raw>, compact: Json -> string)
    requires f != [] && (f[0].children == [] || f[0].cond.attributeId.None?)
    requires KnownConnector(f[0].cond.connector)
    requires f[0].children != [] ==>
               ForestText(f[0].children, ValueLeaf(expected, compact)) == ChainText(Flat(f[0].children, expected), compact)
    requires |f| > 1 ==> ForestText(f[1..], ValueLeaf(expected, compact)) == ChainText(Flat(f[1..], expected), compact)
    ensures ForestText(f, ValueLeaf(expected, compact)) == ChainText(Flat(f, expected), compact)
  {}

  lemma MixedText(f: seq<Tree>, expected: map<string, Raw>, compact: Json -> string)
    requires f != [] && f[0].children != [] && f[0].cond.attributeId.Some?
    requires KnownConnector(f[0].cond.connector) && KnownConnector(f[0].cond.childConnector)
    requires ForestText(f[0].children, ValueLeaf(expected, compact)) == ChainText(Flat(f[0].children, expected), compact)
    requires |f| > 1 ==> ForestText(f[1..], ValueLeaf(expected, compact)) == ChainText(Flat(f[1..], expected), compact)
    ensures ForestText(f, ValueLeaf(expected, compact)) == ChainText(Flat(f, expected), compact)
  {
    var c := f[0].cond;
    var group := Group(Flat(f[0].children, expected));
    var head := ValueLeaf(expected, compact)(c) + " " + ConnectorText(c.childConnector) + " ";
    var tail := Flat(f, expected).rest;
    assert ChainText(Flat(f, expected), compact) == head + ChainText(tail, compact);
    assert NodeText(f[0], ValueLeaf(expected, compact)) == head + ShapeText(group, compact);
    if |f| > 1 {
      var rest := Flat(f[1..], expected);
      assert tail == Link(group, c.connector == Some(OR), rest);
      Reassociate(head, ShapeText(group, compact), ConnectorText(c.connector), ChainText(rest, compact));
    }
  }

  lemma Reassociate(head: string, node: string, link: string, rest: string)
    ensures (head + node) + " " + link + " " + rest == head + (node + " " + link + " " + rest)
  {}

  // ------------------------------------------------------------ unique reading

  /** Text that may follow a value: nothing, a space or a closing parenthesis. */
  predicate Stop(s: string) {
    s == "" || s[0] == ' ' || s[0] == ')'
  }

  /** Text that may follow a chain. */
  predicate End(s: string) {
    s == "" || s[0] == ')'
  }

  /** What is needed of json.Marshal: null prints as null and a printed value delimits itself. */
  ghost predicate CompactLaw(compact: Json -> string) {
    && compact(JNull) == "null"
    && forall v, w, r, s | Stop(r) && Stop(s) && compact(v) + r == compact(w) + s :: v == w
  }

  /** Where the operator that starts `s` ends. */
  function OperatorLength(s: string): nat {
    if "NOT IN " <= s then 6 else FirstSpace(s)
  }

  function FirstSpace(s: string): nat {
    if s == "" || s[0] == ' ' then 0 else 1 + FirstSpace(s[1..])
  }

  lemma FirstSpaceAt(s: string, n: nat)
    requires n < |s| && s[n] == ' ' && forall i | 0 <= i < n :: s[i] != ' '
    ensures FirstSpace(s) == n
  {
    if n > 0 {
      FirstSpaceAt(s[1..], n - 1);
    }
  }

  lemma OperatorEnds(op: string, rest: string)
    requires op in OPERATORS
    ensures OperatorLength(op + " " + rest) == |op|
  {
    var s := op + " " + rest;
    if op != "NOT IN" {
      assert s[|op|] == ' ';
      FirstSpaceAt(s, |op|);
      assert s[0] != 'N';
    }
  }

  /** The parts of a leaf's text, found by position. */
  lemma LeafParts(s: Shape, r: string, compact: Json -> string)
    requires s.Leaf? && s.op in OPERATORS
    ensures var t := ShapeText(s, compact) + r;
            && |t| > 37 && t[..36] == s.attr
            && OperatorLength(t[37..]) == |s.op| < |t[37..]|
            && t[37..][..|s.op|] == s.op
            && t[37..][|s.op| + 1..] == compact(s.value) + r
  {
    var t := ShapeText(s, compact) + r;
    var v := compact(s.value) + r;
    assert t == s.attr + " " + (s.op + " " + v);
    assert t[37..] == s.op + " " + v;
    OperatorEnds(s.op, v);
  }

  lemma LeafTextUnique(a: Shape, b: Shape, ra: string, rb: string, compact: Json -> string)
    requires CompactLaw(compact) && a.Leaf? && b.Leaf? && WellFormedShape(a) && WellFormedShape(b)
    requires Stop(ra) && Stop(rb)
    requires ShapeText(a, compact) + ra == ShapeText(b, compact) + rb
    ensures a == b && ra == rb
  {
    LeafParts(a, ra, compact);
    LeafParts(b, rb, compact);
    var va, vb := compact(a.value) + ra, compact(b.value) + rb;
    assert va == vb;
    assert a.value == b.value;
    assert ra == va[|compact(a.value)|..] == rb;
  }

  /** A shape's text starts with "(" or, for a leaf, with a UUID character; "()" is the unit's alone. */
  lemma TextStart(s: Shape, compact: Json -> string)
    ensures |ShapeText(s, compact)| >= 2
    ensures s.Leaf? <==> ShapeText(s, compact)[0] != '('
    ensures s.Unit? <==> ShapeText(s, compact)[..2] == "()"
    ensures ShapeText(s, compact)[0] != ')' && ShapeText(s, compact)[0] != ' '
    decreases s, 0
  {
    match s
    case Leaf(attr, op, v) =>
      assert ShapeText(s, compact)[0] == attr[0] && IsUuidChar(attr[0]);
    case Unit =>
    case Group(items) =>
      ChainStart(items, compact);
      assert ShapeText(s, compact)[1] == ChainText(items, compact)[0];
  }

  lemma ChainStart(c: Chain, compact: Json -> string)
    ensures |ChainText(c, compact)| >= 2
    ensures ChainText(c, compact)[0] != ')'
    decreases c, 1
  {
    TextStart(c.node, compact);
    assert ChainText(c, compact)[0] == ShapeText(c.node, compact)[0];
  }

  lemma Unparenthesised(text: string, rest: string)
    ensures ("(" + text + ")" + rest)[1..] == text + (")" + rest)
  {}

  /** Unique readability: equal texts, whatever may follow them, come from equal shapes. */
  lemma {:induction false} ShapeUnique(a: Shape, b: Shape, ra: string, rb: string, compact: Json -> string)
    requires CompactLaw(compact) && WellFormedShape(a) && WellFormedShape(b) && Stop(ra) && Stop(rb)
    requires ShapeText(a, compact) + ra == ShapeText(b, compact) + rb
    ensures a == b && ra == rb
    decreases a, 0
  {
    var ta, tb := ShapeText(a, compact), ShapeText(b, compact);
    TextStart(a, compact);
    TextStart(b, compact);
    assert ta[0] == (ta + ra)[0] == tb[0];
    assert ta[..2] == (ta + ra)[..2] == tb[..2];
    if a.Leaf? {
      LeafTextUnique(a, b, ra, rb, compact);
    } else if a.Unit? {
      assert ra == (ta + ra)[2..] == rb;
    } else {
      var ca, cb := ChainText(a.items, compact), ChainText(b.items, compact);
      Unparenthesised(ca, ra);
      Unparenthesised(cb, rb);
      ChainUnique(a.items, b.items, ")" + ra, ")" + rb, compact);
      assert ra == (")" + ra)[1..] == rb;
    }
  }

  /** What follows the first node of a chain. */
  function ChainTail(c: Chain, r: string, compact: Json -> string): string {
    match c
    case One(_) => r
    case Link(_, isOr, rest) => " " + (if isOr then OR else AND) + " " + ChainText(rest, compact) + r
  }

  lemma TailUnique(a: Chain, b: Chain, ra: string, rb: string, compact: Json -> string)
    requires End(ra) && End(rb) && ChainTail(a, ra, compact) == ChainTail(b, rb, compact)
    ensures a.Link? <==> b.Link?
    ensures a.Link? ==> a.isOr == b.isOr && ChainText(a.rest, compact) + ra == ChainText(b.rest, compact) + rb
    ensures a.One? ==> ra == rb
    ensures Stop(ChainTail(a, ra, compact))
  {
    var t := ChainTail(a, ra, compact);
    if a.Link? {
      LinkTail(a, ra, compact);
    }
    if b.Link? {
      LinkTail(b, rb, compact);
    }
  }

  lemma LinkTail(c: Chain, r: string, compact: Json -> string)
    requires c.Link?
    ensures var t := ChainTail(c, r, compact);
            && |t| > 5 && t[0] == ' ' && t[1] == (if c.isOr then 'O' else 'A')
            && t[if c.isOr then 4 else 5..] == ChainText(c.rest, compact) + r
  {
    ChainStart(c.rest, compact);
    var t := ChainTail(c, r, compact);
    var link := if c.isOr then " OR " else " AND ";
    assert t == link + (ChainText(c.rest, compact) + r);
  }

  lemma {:induction false} ChainUnique(a: Chain, b: Chain, ra: string, rb: string, compact: Json -> string)
    requires CompactLaw(compact) && WellFormed(a) && WellFormed(b) && End(ra) && End(rb)
    requires ChainText(a, compact) + ra == ChainText(b, compact) + rb
    ensures a == b && ra == rb
    decreases a, 1
  {
    var ta, tb := ChainTail(a, ra, compact), ChainTail(b, rb, compact);
    HeadAndTail(a, ra, compact);
    HeadAndTail(b, rb, compact);
    ShapeUnique(a.node, b.node, ta, tb, compact);
    TailUnique(a, b, ra, rb, compact);
    if a.Link? {
      ChainUnique(a.rest, b.rest, ra, rb, compact);
    }
  }

  lemma HeadAndTail(c: Chain, r: string, compact: Json -> string)
    requires End(r)
    ensures ChainText(c, compact) + r == ShapeText(c.node, compact) + ChainTail(c, r, compact)
    ensures Stop(ChainTail(c, r, compact))
  {
    if c.Link? {
      SplitLink(ShapeText(c.node, compact), if c.isOr then OR else AND, ChainText(c.rest, compact), r);
    }
  }

  lemma SplitLink(node: string, link: string, rest: string, r: string)
    ensures (node + " " + link + " " + rest) + r == node + (" " + link + " " + rest + r)
  {}

  /** Two forests print alike exactly when they have the same shape. */
  lemma TextsAgreeIffShapesAgree(f: seq<Tree>, g: seq<Tree>, ef: map<string, Raw>, eg: map<string, Raw>,
                                 compact: Json -> string)
    requires CompactLaw(compact) && f != [] && g != [] && Printable(f) && Printable(g)
    ensures ForestText(f, ValueLeaf(ef, compact)) == ForestText(g, ValueLeaf(eg, compact))
            <==> Flat(f, ef) == Flat(g, eg)
  {
    TextOfShape(f, ef, compact);
    TextOfShape(g, eg, compact);
    ShapeIsWellFormed(f, ef);
    ShapeIsWellFormed(g, eg);
    var a, b := Flat(f, ef), Flat(g, eg);
    if ChainText(a, compact) == ChainText(b, compact) {
      assert ChainText(a, compact) + "" == ChainText(b, compact) + "";
      ChainUnique(a, b, "", "", compact);
    }
  }
}
