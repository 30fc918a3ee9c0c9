/** XmlGenerationVisitor (src/Main.kt:209-263): the document header, then
    each root rendered recursively with one tab per level of depth,
    self-closing tags for entities without text and daughters, and a line
    break after a closing tag only below the root level. */
module Serializer {
  import opened Wrappers
  import opened Tree
  import Seqs

  /** Kotlin's Char.isWhitespace on the JVM: Character.isWhitespace or
      Character.isSpaceChar, i.e. the control characters TAB, LF, VT, FF, CR
      and FS..US plus every space, line and paragraph separator. */
  predicate IsWhitespace(c: char) {
    var k := c as int;
    || (0x09 <= k <= 0x0D) || (0x1C <= k <= 0x20)
    || k == 0xA0 || k == 0x1680 || (0x2000 <= k <= 0x200A)
    || k == 0x2028 || k == 0x2029 || k == 0x202F || k == 0x205F || k == 0x3000
  }

  /** `isNullOrBlank()` of a `String?`. */
  predicate IsNullOrBlank(t: Option<string>) {
    t.None? || forall i | 0 <= i < |t.value| :: IsWhitespace(t.value[i])
  }

  /** `"\t".repeat(n)`. */
  function Tabs(n: nat): (r: string)
    ensures |r| == n && forall i | 0 <= i < n :: r[i] == '\t'
  {
    if n == 0 then "" else Tabs(n - 1) + "\t"
  }

  /** A `String?` interpolated into a string template: null prints as "null". */
  function Interpolate(s: Option<string>): string {
    match s
    case None => "null"
    case Some(v) => v
  }

  /** The header is one line: it starts with `<?xml ` and its only line
      break is the last character, unless the version or the encoding
      carries one. */
  function Header(version: Option<string>, encoding: Option<string>): (r: string)
    ensures |r| > 6 && r[..6] == "<?xml " && r[|r| - 1] == '\n'
    ensures '\n' !in Interpolate(version) && '\n' !in Interpolate(encoding) ==>
      forall i | 0 <= i < |r| - 1 :: r[i] != '\n'
  {
    "<?xml version=\"" + Interpolate(version) + "\" encoding=\"" + Interpolate(encoding) + "\"?>\n"
  }

  function RenderAttribute(a: Attribute): string {
    " " + a.name + "=\"" + a.value + "\""
  }

  /** The attributes in list order, each as ` name="value"`, unescaped. */
  function RenderAttributes(attrs: seq<Attribute>): string {
    if attrs == [] then "" else RenderAttributes(attrs[..|attrs| - 1]) + RenderAttribute(attrs[|attrs| - 1])
  }

  predicate SelfClosing(e: Element) {
    IsNullOrBlank(e.text) && |e.daughters| == 0
  }

  /** The opening of a tag: indent, `<name` and the attributes. */
  function OpenTag(e: Element, depth: nat): string {
    Tabs(depth) + "<" + e.name + RenderAttributes(e.attributes)
  }

  /** visit(Entity) at the given depth. */
  function RenderEntity(e: Element, depth: nat): string
    decreases e, 2
  {
    OpenTag(e, depth) + Body(e, depth)
  }

  /** What follows the opening tag: `/>` and a line break for a self-closing
      entity, otherwise `>`, the text, the daughters and the closing tag. */
  function Body(e: Element, depth: nat): string
    decreases e, 1
  {
    if SelfClosing(e) then "/>\n"
    else ">" + TextOf(e) + Inner(e, depth) + CloseTag(e, depth)
  }

  /** The text, verbatim, when there is one. */
  function TextOf(e: Element): string {
    if e.text.Some? then e.text.value else ""
  }

  /** The daughters, each on its own lines, followed by the indent of the
      closing tag; nothing when there are none. */
  function Inner(e: Element, depth: nat): string
    decreases e, 0
  {
    if |e.daughters| > 0 then "\n" + RenderForest(e.daughters, depth + 1) + Tabs(depth) else ""
  }

  /** `</name>`, with a line break only below the root level. */
  function CloseTag(e: Element, depth: nat): string {
    "</" + e.name + ">" + (if depth > 0 then "\n" else "")
  }

  /** The entities of `f`, in order, each at the given depth. */
  function RenderForest(f: seq<Element>, depth: nat): string
    decreases f
  {
    if f == [] then "" else RenderForest(f[..|f| - 1], depth) + RenderEntity(f[|f| - 1], depth)
  }

  /** Every entity's rendering starts with its indent and opening tag; it
      ends with a line break exactly when it is self-closing or not a root. */
  lemma RenderEntityFraming(e: Element, depth: nat)
    ensures var r := RenderEntity(e, depth);
      && |r| > |OpenTag(e, depth)|
      && r[..|OpenTag(e, depth)|] == OpenTag(e, depth)
      && (r[|r| - 1] == '\n' <==> SelfClosing(e) || depth > 0)
  {
    var r := RenderEntity(e, depth);
    var open := OpenTag(e, depth);
    var body := Body(e, depth);
    assert r == open + body;
    assert r[|r| - 1] == body[|body| - 1];
    if !SelfClosing(e) {
      var close := CloseTag(e, depth);
      assert body[|body| - 1] == close[|close| - 1];
    }
  }

  /** A text that is not blank, or any text of an entity with daughters, is
      copied verbatim right after the opening tag's `>`. */
  lemma RenderEntityKeepsText(e: Element, depth: nat)
    requires e.text.Some? && !SelfClosing(e)
    ensures var open := OpenTag(e, depth) + ">" + e.text.value;
            var r := RenderEntity(e, depth);
            |r| >= |open| && r[..|open|] == open
  {
    var open := OpenTag(e, depth) + ">" + e.text.value;
    var r := RenderEntity(e, depth);
    var o, t := OpenTag(e, depth), e.text.value;
    var rest := Inner(e, depth) + CloseTag(e, depth);
    assert r == o + Body(e, depth);
    assert TextOf(e) == t;
    assert Body(e, depth) == ">" + t + Inner(e, depth) + CloseTag(e, depth);
    Seqs.Assoc(">" + t, Inner(e, depth), CloseTag(e, depth));
    Seqs.Assoc(o, ">" + t, rest);
    Seqs.Assoc(o, ">", t);
    assert r == open + rest;
  }

  /** A blank text on an entity without daughters is dropped: the entity is
      rendered as if it had no text. */
  lemma BlankTextIsDropped(e: Element, depth: nat)
    requires IsNullOrBlank(e.text) && |e.daughters| == 0
    ensures RenderEntity(e, depth) == RenderEntity(e.(text := None), depth)
  {
  }

  /** With daughters, an empty text and no text render the same. */
  lemma EmptyTextIsNoText(e: Element, depth: nat)
    requires |e.daughters| > 0 && e.text == Some("")
    ensures RenderEntity(e, depth) == RenderEntity(e.(text := None), depth)
  {
    var e' := e.(text := None);
    assert OpenTag(e, depth) == OpenTag(e', depth);
    assert TextOf(e) == TextOf(e') == "";
    assert Inner(e, depth) == Inner(e', depth);
  }

  // ---------------------------------------------------------------------
  // Each entity is rendered at the depth its mother chain gives it
  // ---------------------------------------------------------------------

  /** `t` appears in `s` as one contiguous piece. */
  ghost predicate Occurs(t: string, s: string) {
    exists a: string, b: string :: s == a + t + b
  }

  lemma OccursTrans(t: string, u: string, s: string)
    requires Occurs(t, u) && Occurs(u, s)
    ensures Occurs(t, s)
  {
    var c, d :| u == c + t + d;
    var a, b :| s == a + u + b;
    assert s == (a + c) + t + (d + b);
  }

  /** An entity with daughters spans its opening line, the daughters and
      its closing line. */
  lemma RenderWithDaughters(e: Element, d: nat)
    requires |e.daughters| > 0
    ensures RenderEntity(e, d)
         == (OpenTag(e, d) + ">" + TextOf(e) + "\n")
          + RenderForest(e.daughters, d + 1)
          + (Tabs(d) + CloseTag(e, d))
  {
    var o, t, f := OpenTag(e, d), TextOf(e), RenderForest(e.daughters, d + 1);
    var tabs, close := Tabs(d), CloseTag(e, d);
    assert Inner(e, d) == "\n" + f + tabs;
    assert RenderEntity(e, d) == o + (">" + t + ("\n" + f + tabs) + close);
    calc {
      o + (">" + t + ("\n" + f + tabs) + close);
      { Seqs.Assoc(">" + t, "\n" + f + tabs, close); }
      o + (">" + t + ("\n" + f + tabs + close));
      { Seqs.Assoc("\n" + f, tabs, close); Seqs.Assoc("\n", f, tabs + close); }
      o + (">" + t + ("\n" + (f + (tabs + close))));
      { Seqs.Assoc(">" + t, "\n", f + (tabs + close)); }
      o + (">" + t + "\n" + (f + (tabs + close)));
      { Seqs.Assoc(o, ">" + t + "\n", f + (tabs + close)); }
      o + (">" + t + "\n") + (f + (tabs + close));
      { Seqs.Assoc(o + (">" + t + "\n"), f, tabs + close); }
      o + (">" + t + "\n") + f + (tabs + close);
    }
    assert o + (">" + t + "\n") == o + ">" + t + "\n";
  }

  /** Each entity of a forest is rendered, in one piece, inside the forest's text. */
  lemma {:induction false} OccursInForest(f: seq<Element>, d: nat, k: nat)
    requires k < |f|
    ensures Occurs(RenderEntity(f[k], d), RenderForest(f, d))
    decreases |f|
  {
    var init := f[..|f| - 1];
    var t := RenderEntity(f[k], d);
    if k == |f| - 1 {
      assert RenderForest(f, d) == RenderForest(init, d) + t + "";
    } else {
      assert init[k] == f[k];
      OccursInForest(init, d, k);
      var a, b :| RenderForest(init, d) == a + t + b;
      assert RenderForest(f, d) == a + t + (b + RenderEntity(f[|f| - 1], d));
    }
  }

  /** Each daughter is rendered, one level deeper, inside its mother's text. */
  lemma OccursInDaughters(e: Element, d: nat, k: nat)
    requires k < |e.daughters|
    ensures Occurs(RenderEntity(e.daughters[k], d + 1), RenderEntity(e, d))
  {
    var f := RenderForest(e.daughters, d + 1);
    OccursInForest(e.daughters, d + 1, k);
    RenderWithDaughters(e, d);
    assert RenderEntity(e, d) == (OpenTag(e, d) + ">" + TextOf(e) + "\n") + f + (Tabs(d) + CloseTag(e, d));
    OccursTrans(RenderEntity(e.daughters[k], d + 1), f, RenderEntity(e, d));
  }

  /** The entity at position `p` is rendered, at depth `Depth(p)`, inside the
      text of the roots. */
  lemma {:induction false} EntityOccurs(roots: seq<Element>, p: Path)
    requires EntityAt(roots, p).Some?
    ensures Occurs(RenderEntity(EntityAt(roots, p).value, Depth(p)), RenderForest(roots, 0))
    decreases |p|
  {
    if |p| == 1 {
      assert p[1..] == [];
      OccursInForest(roots, 0, p[0]);
    } else {
      var m, k := p[..|p| - 1], p[|p| - 1];
      assert m[0] == p[0] && p[1..] == m[1..] + [k];
      DescendAppend(roots[p[0]], m[1..], k);
      EntityOccurs(roots, m);
      var x := EntityAt(roots, m).value;
      OccursInDaughters(x, Depth(m), k);
      OccursTrans(RenderEntity(x.daughters[k], Depth(m) + 1), RenderEntity(x, Depth(m)), RenderForest(roots, 0));
    }
  }

  lemma EveryEntityOccurs(h: string, roots: seq<Element>)
    ensures forall p | EntityAt(roots, p).Some? ::
      Occurs(RenderEntity(EntityAt(roots, p).value, Depth(p)), h + RenderForest(roots, 0))
  {
    forall p | EntityAt(roots, p).Some?
      ensures Occurs(RenderEntity(EntityAt(roots, p).value, Depth(p)), h + RenderForest(roots, 0))
    {
      var t := RenderEntity(EntityAt(roots, p).value, Depth(p));
      EntityOccurs(roots, p);
      var a, b :| RenderForest(roots, 0) == a + t + b;
      assert h + RenderForest(roots, 0) == (h + a) + t + b;
    }
  }

  /** visit(Document): the header line, then every root at depth 0; every
      entity of the tree is rendered, in one piece, at the depth its mother
      chain gives it. */
  function RenderDocument(version: Option<string>, encoding: Option<string>, roots: seq<Element>): (r: string)
    ensures |r| >= |Header(version, encoding)| && r[..|Header(version, encoding)|] == Header(version, encoding)
    ensures forall p | EntityAt(roots, p).Some? :: Occurs(RenderEntity(EntityAt(roots, p).value, Depth(p)), r)
  {
    EveryEntityOccurs(Header(version, encoding), roots);
    Header(version, encoding) + RenderForest(roots, 0)
  }

  /** The serializer indents each entity by its depth (src/Main.kt:226): the
      entity at `p` appears in the document's text as a piece that starts
      with `Depth(p)` tabs, `<` and its name, and ends with a line break
      exactly when it is self-closing or not a root. */
  lemma EntityRenderedAtItsDepth(version: Option<string>, encoding: Option<string>, roots: seq<Element>, p: Path)
    requires EntityAt(roots, p).Some?
    ensures var e := EntityAt(roots, p).value;
            var r := RenderEntity(e, Depth(p));
            var open := Tabs(Depth(p)) + "<" + e.name;
            && Occurs(r, RenderDocument(version, encoding, roots))
            && |r| >= |open| && r[..|open|] == open
            && (r[|r| - 1] == '\n' <==> SelfClosing(e) || Depth(p) > 0)
  {
    var e := EntityAt(roots, p).value;
    var d := Depth(p);
    var r := RenderEntity(e, d);
    var open := Tabs(d) + "<" + e.name;
    RenderEntityFraming(e, d);
    assert OpenTag(e, d) == open + RenderAttributes(e.attributes);
    assert r[..|open|] == OpenTag(e, d)[..|open|] == open;
  }

  class XmlGenerationVisitor {
    /** The StringBuilder the visits append to. */
    var builder: string

    constructor ()
      ensures builder == ""
    {
      builder := "";
    }

    function GetXmlString(): string
      reads this
    {
      builder
    }

    method VisitDocument(version: Option<string>, encoding: Option<string>, roots: seq<Element>)
      modifies this
      ensures builder == old(builder) + RenderDocument(version, encoding, roots)
    {
      builder := builder + Header(version, encoding);
      ghost var prefix := builder;
      var i := 0;
      while i < |roots|
        invariant 0 <= i <= |roots|
        invariant builder == prefix + RenderForest(roots[..i], 0)
      {
        ghost var before := builder;
        VisitEntity(roots[i], 0);
        assert roots[..i + 1][..i] == roots[..i];
        assert RenderForest(roots[..i + 1], 0) == RenderForest(roots[..i], 0) + RenderEntity(roots[i], 0);
        Seqs.Assoc(prefix, RenderForest(roots[..i], 0), RenderEntity(roots[i], 0));
        i := i + 1;
      }
      assert roots[..|roots|] == roots;
      Seqs.Assoc(old(builder), Header(version, encoding), RenderForest(roots, 0));
    }

    /** Appends the opening tag: indent, `<name` and each attribute. */
    method AppendOpenTag(e: Element, depth: nat)
      modifies this
      ensures builder == old(builder) + OpenTag(e, depth)
    {
      ghost var start := builder;
      var indent := Tabs(depth);
      builder := builder + (indent + "<" + e.name);
      ghost var prefix := builder;
      var j := 0;
      while j < |e.attributes|
        invariant 0 <= j <= |e.attributes|
        invariant builder == prefix + RenderAttributes(e.attributes[..j])
      {
        var a := e.attributes[j];
        builder := builder + (" " + a.name + "=\"" + a.value + "\"");
        assert e.attributes[..j + 1][..j] == e.attributes[..j];
        Seqs.Assoc(prefix, RenderAttributes(e.attributes[..j]), RenderAttribute(a));
        j := j + 1;
      }
      assert e.attributes[..|e.attributes|] == e.attributes;
      Seqs.Assoc(start, indent + "<" + e.name, RenderAttributes(e.attributes));
    }

    /** Appends each daughter at the next depth. */
    method AppendDaughters(e: Element, depth: nat)
      modifies this
      ensures builder == old(builder) + RenderForest(e.daughters, depth + 1)
      decreases e, 0
    {
      ghost var prefix := builder;
      var i := 0;
      assert builder == prefix + RenderForest(e.daughters[..0], depth + 1);
      while i < |e.daughters|
        invariant 0 <= i <= |e.daughters|
        invariant builder == prefix + RenderForest(e.daughters[..i], depth + 1)
      {
        assert e.daughters[i] in e.daughters;
        VisitEntity(e.daughters[i], depth + 1);
        assert e.daughters[..i + 1][..i] == e.daughters[..i];
        assert RenderForest(e.daughters[..i + 1], depth + 1)
            == RenderForest(e.daughters[..i], depth + 1) + RenderEntity(e.daughters[i], depth + 1);
        Seqs.Assoc(prefix, RenderForest(e.daughters[..i], depth + 1), RenderEntity(e.daughters[i], depth + 1));
        i := i + 1;
      }
      assert e.daughters[..|e.daughters|] == e.daughters;
    }

    /** With daughters: a line break, the daughters, and the indent of the
        closing tag. */
    method AppendInner(e: Element, depth: nat)
      modifies this
      ensures builder == old(builder) + Inner(e, depth)
      decreases e, 1
    {
      if |e.daughters| > 0 {
        ghost var start := builder;
        builder := builder + "\n";
        AppendDaughters(e, depth);
        builder := builder + Tabs(depth);
        Seqs.Assoc4(start, "\n", RenderForest(e.daughters, depth + 1), Tabs(depth));
      }
    }

    method AppendBody(e: Element, depth: nat)
      modifies this
      ensures builder == old(builder) + Body(e, depth)
      decreases e, 2
    {
      ghost var start := builder;
      if IsNullOrBlank(e.text) && |e.daughters| == 0 {
        builder := builder + "/>\n";
      } else {
        builder := builder + ">";
        if e.text.Some? {
          builder := builder + e.text.value;
        }
        ghost var head := ">" + TextOf(e);
        Seqs.Assoc(start, ">", TextOf(e));
        AppendInner(e, depth);
        Seqs.Assoc(start, head, Inner(e, depth));
        ghost var mid := head + Inner(e, depth);
        ghost var open := builder;
        builder := builder + "</" + e.name + ">";
        if depth > 0 {
          builder := builder + "\n";
        }
        assert builder == open + CloseTag(e, depth);
        Seqs.Assoc(start, mid, CloseTag(e, depth));
      }
    }

    method VisitEntity(e: Element, depth: nat)
      modifies this
      ensures builder == old(builder) + RenderEntity(e, depth)
      decreases e, 3
    {
      ghost var start := builder;
      AppendOpenTag(e, depth);
      AppendBody(e, depth);
      Seqs.Assoc(start, OpenTag(e, depth), Body(e, depth));
    }
  }
}
