/** The documents and objects of src/tests.kt, written bottom-up as values,
    with the outcomes the tests expect. */
module Fixtures {
  import opened Wrappers
  import opened Names
  import opened Tree
  import Seqs
  import Serializer
  import PathQuery
  import Visitors
  import Documents
  import Mapper

  function Componente(nome: string, peso: string): Element {
    Element("componente", None, [Attribute("nome", nome), Attribute("peso", peso)], [])
  }

  function Avaliacao(): Element {
    Element("avaliacao", None, [], [Componente("Quizzes", "20%"), Componente("Projeto", "80%")])
  }

  function Fuc(): Element {
    Element("fuc", None, [Attribute("codigo", "M4310")], [
      Element("nome", Some("Programação Avançada"), [], []),
      Element("ects", Some("6.0"), [], []),
      Avaliacao()])
  }

  /** The study plan of testDepth, testToXmlString and testXPath. */
  function Plano(): seq<Element> {
    [Element("plano", None, [], [
      Element("curso", Some("Mestrado em Engenharia Informática"), [], []),
      Fuc()])]
  }

  /** testDepth (src/tests.kt:199-248): the levels 0 to 3. */
  lemma PlanoDepths()
    ensures EntityAt(Plano(), [0]).Some? && EntityAt(Plano(), [0]).value.name == "plano" && Depth([0]) == 0
    ensures EntityAt(Plano(), [0, 0]).Some? && EntityAt(Plano(), [0, 0]).value.name == "curso" && Depth([0, 0]) == 1
    ensures EntityAt(Plano(), [0, 1]).Some? && EntityAt(Plano(), [0, 1]).value.name == "fuc" && Depth([0, 1]) == 1
    ensures EntityAt(Plano(), [0, 1, 2]).Some? && EntityAt(Plano(), [0, 1, 2]).value.name == "avaliacao"
            && Depth([0, 1, 2]) == 2
    ensures EntityAt(Plano(), [0, 1, 2, 1]).Some? && EntityAt(Plano(), [0, 1, 2, 1]).value == Componente("Projeto", "80%")
            && Depth([0, 1, 2, 1]) == 3
  {
  }

  // Rendering a fixture line by line. The literal pieces of each expected
  // line are joined in lemmas of their own.

  lemma ComponenteLiterals()
    ensures " nome=\"" + "Quizzes" + "\"" == " nome=\"Quizzes\""
    ensures " peso=\"" + "20%" + "\"" == " peso=\"20%\""
    ensures " nome=\"" + "Projeto" + "\"" == " nome=\"Projeto\""
    ensures " peso=\"" + "80%" + "\"" == " peso=\"80%\""
  {
  }

  lemma AvaliacaoLiterals()
    ensures "\t\t" + "<" + "avaliacao" + ">\n" == "\t\t<avaliacao>\n"
    ensures "\t\t" + "</" + "avaliacao" + ">" + "\n" == "\t\t</avaliacao>\n"
  {
  }

  lemma FucLiterals()
    ensures "\t" + "<" + "fuc" + " codigo=\"M4310\"" + ">" + "" + "\n" == "\t<fuc codigo=\"M4310\">\n"
    ensures "\t" + ("</" + "fuc" + ">" + "\n") == "\t</fuc>\n"
  {
  }

  lemma PlanoLiterals()
    ensures "\t" + "<" + "curso" + ">" == "\t<curso>"
    ensures "</" + "curso" + ">" + "\n" == "</curso>\n"
    ensures "" + "<" + "plano" + ">" + "" + "\n" == "<plano>\n"
    ensures "" + ("</" + "plano" + ">" + "") == "</plano>"
  {
  }

  lemma RenderForestTwo(a: Element, b: Element, d: nat)
    ensures Serializer.RenderForest([a, b], d) == Serializer.RenderEntity(a, d) + Serializer.RenderEntity(b, d)
  {
    assert [a, b][..1] == [a];
    assert [a][..0] == [];
    assert Serializer.RenderForest([a], d) == "" + Serializer.RenderEntity(a, d);
    assert "" + Serializer.RenderEntity(a, d) == Serializer.RenderEntity(a, d);
  }

  lemma RenderForestThree(a: Element, b: Element, c: Element, d: nat)
    ensures Serializer.RenderForest([a, b, c], d)
         == Serializer.RenderEntity(a, d) + Serializer.RenderEntity(b, d) + Serializer.RenderEntity(c, d)
  {
    assert [a, b, c][..2] == [a, b];
    RenderForestTwo(a, b, d);
  }

  lemma RenderAttributesTwo(a1: Attribute, a2: Attribute)
    ensures Serializer.RenderAttributes([a1, a2]) == Serializer.RenderAttribute(a1) + Serializer.RenderAttribute(a2)
  {
    assert [a1, a2][..1] == [a1];
    assert [a1][..0] == [];
    assert Serializer.RenderAttributes([a1]) == "" + Serializer.RenderAttribute(a1);
  }

  lemma ComponenteRendering(nome: string, peso: string)
    ensures Serializer.RenderEntity(Componente(nome, peso), 3)
         == "\t\t\t<componente" + (" nome=\"" + nome + "\"" + (" peso=\"" + peso + "\"")) + "/>\n"
  {
    RenderAttributesTwo(Attribute("nome", nome), Attribute("peso", peso));
    assert Serializer.Tabs(3) == "\t\t\t";
  }

  /** A leaf with a text that is not blank is one line. */
  lemma TextLeafRendering(name: string, text: string, d: nat)
    requires text != [] && !Serializer.IsWhitespace(text[0]) && d > 0
    ensures Serializer.RenderEntity(Element(name, Some(text), [], []), d)
         == (Serializer.Tabs(d) + "<" + name + ">") + text + ("</" + name + ">" + "\n")
  {
    var e := Element(name, Some(text), [], []);
    assert !Serializer.SelfClosing(e);
    var o := Serializer.Tabs(d) + "<" + name;
    assert Serializer.OpenTag(e, d) == o + "" == o;
    assert Serializer.Inner(e, d) == "";
    assert Serializer.CloseTag(e, d) == "</" + name + ">" + "\n";
    assert Serializer.Body(e, d) == ">" + text + "" + ("</" + name + ">" + "\n");
    assert ">" + text + "" == ">" + text;
    assert Serializer.RenderEntity(e, d) == o + (">" + text + ("</" + name + ">" + "\n"));
  }

  lemma AvaliacaoDaughters()
    ensures Serializer.RenderForest(Avaliacao().daughters, 3)
         == "\t\t\t<componente" + " nome=\"Quizzes\"" + " peso=\"20%\"" + "/>\n"
          + ("\t\t\t<componente" + " nome=\"Projeto\"" + " peso=\"80%\"" + "/>\n")
  {
    ComponenteRendering("Quizzes", "20%");
    ComponenteRendering("Projeto", "80%");
    ComponenteLiterals();
    RenderForestTwo(Componente("Quizzes", "20%"), Componente("Projeto", "80%"), 3);
  }

  /** The opening and the closing line of an entity with daughters but no
      attributes and no text. */
  lemma BareLines(e: Element, d: nat)
    requires e.attributes == [] && e.text.None?
    ensures Serializer.OpenTag(e, d) + ">" + Serializer.TextOf(e) + "\n" == Serializer.Tabs(d) + "<" + e.name + ">\n"
    ensures Serializer.Tabs(d) + Serializer.CloseTag(e, d)
         == Serializer.Tabs(d) + "</" + e.name + ">" + (if d > 0 then "\n" else "")
  {
    assert Serializer.RenderAttributes([]) == "";
    assert Serializer.OpenTag(e, d) + ">" + "" + "\n" == Serializer.OpenTag(e, d) + ">\n";
  }

  lemma AvaliacaoRendering()
    ensures Serializer.RenderEntity(Avaliacao(), 2)
         == "\t\t<avaliacao>\n"
          + ("\t\t\t<componente" + " nome=\"Quizzes\"" + " peso=\"20%\"" + "/>\n"
          + ("\t\t\t<componente" + " nome=\"Projeto\"" + " peso=\"80%\"" + "/>\n"))
          + "\t\t</avaliacao>\n"
  {
    var av := Avaliacao();
    AvaliacaoDaughters();
    Serializer.RenderWithDaughters(av, 2);
    BareLines(av, 2);
    assert Serializer.Tabs(2) == "\t\t";
    AvaliacaoLiterals();
  }

  lemma TextLine(name: string, text: string, d: nat, open: string, close: string)
    requires text != [] && !Serializer.IsWhitespace(text[0]) && d > 0
    requires open == Serializer.Tabs(d) + "<" + name + ">"
    requires close == "</" + name + ">" + "\n"
    ensures Serializer.RenderEntity(Element(name, Some(text), [], []), d) == open + text + close
  {
    TextLeafRendering(name, text, d);
  }

  lemma FucDaughters(rAv: string)
    requires rAv == Serializer.RenderEntity(Avaliacao(), 2)
    ensures Serializer.RenderForest(Fuc().daughters, 2)
         == "\t\t<nome>" + "Programação Avançada" + "</nome>\n"
          + ("\t\t<ects>" + "6.0" + "</ects>\n") + rAv
  {
    var fuc := Fuc();
    assert Serializer.Tabs(2) == "\t\t";
    TextLine("nome", "Programação Avançada", 2, "\t\t<nome>", "</nome>\n");
    TextLine("ects", "6.0", 2, "\t\t<ects>", "</ects>\n");
    RenderForestThree(fuc.daughters[0], fuc.daughters[1], Avaliacao(), 2);
  }

  lemma FucLines()
    ensures Serializer.OpenTag(Fuc(), 1) + ">" + Serializer.TextOf(Fuc()) + "\n" == "\t<fuc codigo=\"M4310\">\n"
    ensures Serializer.Tabs(1) + Serializer.CloseTag(Fuc(), 1) == "\t</fuc>\n"
  {
    var fuc := Fuc();
    assert Serializer.Tabs(1) == "\t";
    var codigo := Attribute("codigo", "M4310");
    assert Serializer.RenderAttributes([codigo]) == "" + Serializer.RenderAttribute(codigo) by {
      assert [codigo][..0] == [];
    }
    FucLiterals();
    assert Serializer.RenderAttribute(codigo) == " codigo=\"M4310\"";
    assert Serializer.OpenTag(fuc, 1) == "\t" + "<" + "fuc" + " codigo=\"M4310\"";
  }

  lemma FucRendering(rAv: string)
    requires rAv == Serializer.RenderEntity(Avaliacao(), 2)
    ensures Serializer.RenderEntity(Fuc(), 1)
         == "\t<fuc codigo=\"M4310\">\n"
          + ("\t\t<nome>" + "Programação Avançada" + "</nome>\n"
          + ("\t\t<ects>" + "6.0" + "</ects>\n") + rAv)
          + "\t</fuc>\n"
  {
    FucDaughters(rAv);
    Serializer.RenderWithDaughters(Fuc(), 1);
    FucLines();
  }

  lemma CursoRendering()
    ensures Serializer.RenderEntity(Element("curso", Some("Mestrado em Engenharia Informática"), [], []), 1)
         == "\t<curso>" + "Mestrado em Engenharia Informática" + "</curso>\n"
  {
    assert Serializer.Tabs(1) == "\t";
    TextLeafRendering("curso", "Mestrado em Engenharia Informática", 1);
    PlanoLiterals();
  }

  lemma PlanoRootRendering(rFuc: string)
    requires rFuc == Serializer.RenderEntity(Fuc(), 1)
    ensures Serializer.RenderEntity(Plano()[0], 0)
         == "<plano>\n" + ("\t<curso>" + "Mestrado em Engenharia Informática" + "</curso>\n" + rFuc) + "</plano>"
  {
    var plano := Plano()[0];
    CursoRendering();
    PlanoLiterals();
    RenderForestTwo(plano.daughters[0], Fuc(), 1);
    Serializer.RenderWithDaughters(plano, 0);
    assert Serializer.OpenTag(plano, 0) == "" + "<" + "plano" by {
      assert Serializer.RenderAttributes([]) == "";
    }
  }

  lemma OneRoot(v: Option<string>, enc: Option<string>, root: Element)
    ensures Serializer.RenderDocument(v, enc, [root]) == Serializer.Header(v, enc) + Serializer.RenderEntity(root, 0)
  {
    assert [root][..0] == [];
    assert Serializer.RenderForest([root], 0) == "" + Serializer.RenderEntity(root, 0);
  }

  lemma PlanoHeader()
    ensures Serializer.Header(Some("1.0"), Some("UTF-8")) == "<?xml version=\"1.0\" encoding=\"UTF-8\"?>\n"
  {
  }

  lemma PlanoNested()
    ensures Serializer.RenderEntity(Plano()[0], 0)
         == "<plano>\n" + ("\t<curso>" + "Mestrado em Engenharia Informática" + "</curso>\n" + (
            "\t<fuc codigo=\"M4310\">\n"
          + ("\t\t<nome>" + "Programação Avançada" + "</nome>\n"
          + ("\t\t<ects>" + "6.0" + "</ects>\n")
          + ("\t\t<avaliacao>\n"
          + ("\t\t\t<componente" + " nome=\"Quizzes\"" + " peso=\"20%\"" + "/>\n"
          + ("\t\t\t<componente" + " nome=\"Projeto\"" + " peso=\"80%\"" + "/>\n"))
          + "\t\t</avaliacao>\n"))
          + "\t</fuc>\n")) + "</plano>"
  {
    AvaliacaoRendering();
    FucRendering(Serializer.RenderEntity(Avaliacao(), 2));
    PlanoRootRendering(Serializer.RenderEntity(Fuc(), 1));
  }

  /** The nesting of the rendering, flattened into its lines. */
  lemma Flatten(h: string, po: string, c: string, fo: string, n: string, e: string,
                ao: string, q: string, p: string, ac: string, fc: string, pc: string)
    ensures h + (po + (c + (fo + (n + e + (ao + (q + p) + ac)) + fc)) + pc)
         == h + po + c + fo + n + e + ao + q + p + ac + fc + pc
  {
  }

  /** testToXmlString (src/tests.kt:253-317): the exact expected text, one
      line per entity, with no line break after the closing root tag. */
  lemma PlanoRendering()
    ensures Serializer.RenderDocument(Some("1.0"), Some("UTF-8"), Plano())
      == "<?xml version=\"1.0\" encoding=\"UTF-8\"?>\n"
       + "<plano>\n"
       + ("\t<curso>" + "Mestrado em Engenharia Informática" + "</curso>\n")
       + "\t<fuc codigo=\"M4310\">\n"
       + ("\t\t<nome>" + "Programação Avançada" + "</nome>\n")
       + ("\t\t<ects>" + "6.0" + "</ects>\n")
       + "\t\t<avaliacao>\n"
       + ("\t\t\t<componente" + " nome=\"Quizzes\"" + " peso=\"20%\"" + "/>\n")
       + ("\t\t\t<componente" + " nome=\"Projeto\"" + " peso=\"80%\"" + "/>\n")
       + "\t\t</avaliacao>\n"
       + "\t</fuc>\n"
       + "</plano>"
  {
    OneRoot(Some("1.0"), Some("UTF-8"), Plano()[0]);
    PlanoHeader();
    PlanoNested();
    Flatten("<?xml version=\"1.0\" encoding=\"UTF-8\"?>\n", "<plano>\n",
      "\t<curso>" + "Mestrado em Engenharia Informática" + "</curso>\n",
      "\t<fuc codigo=\"M4310\">\n",
      "\t\t<nome>" + "Programação Avançada" + "</nome>\n",
      "\t\t<ects>" + "6.0" + "</ects>\n",
      "\t\t<avaliacao>\n",
      "\t\t\t<componente" + " nome=\"Quizzes\"" + " peso=\"20%\"" + "/>\n",
      "\t\t\t<componente" + " nome=\"Projeto\"" + " peso=\"80%\"" + "/>\n",
      "\t\t</avaliacao>\n", "\t</fuc>\n", "</plano>");
  }

  // The path queries, step by step.

  lemma SegmentsOfThree(a: string, b: string, c: string)
    requires a != "" && b != "" && c != ""
    requires '/' !in a && '/' !in b && '/' !in c
    ensures PathQuery.Segments(a + "/" + b + "/" + c) == [a, b, c]
  {
    assert [a, b, c][1..] == [b, c];
    assert [b, c][1..] == [c];
    assert PathQuery.Join([b, c], '/') == b + "/" + c;
    assert PathQuery.Join([a, b, c], '/') == a + "/" + (b + "/" + c);
    assert a + "/" + (b + "/" + c) == a + "/" + b + "/" + c;
    PathQuery.SegmentsOfJoin([a, b, c]);
  }

  lemma SegmentsOfTwo(a: string, b: string)
    requires a != "" && b != "" && '/' !in a && '/' !in b
    ensures PathQuery.Segments(a + "/" + b) == [a, b]
  {
    assert [a, b][1..] == [b];
    PathQuery.SegmentsOfJoin([a, b]);
  }

  lemma MatchesTwo(a: Element, b: Element, parts: seq<string>, i: nat)
    ensures PathQuery.PathMatchesForest([a, b], parts, i)
         == PathQuery.PathMatches(a, parts, i) + PathQuery.PathMatches(b, parts, i)
  {
    assert [a, b][..1] == [a];
    assert [a][..0] == [];
    assert PathQuery.PathMatchesForest([a], parts, i) == [] + PathQuery.PathMatches(a, parts, i);
  }

  lemma MatchesThree(a: Element, b: Element, c: Element, parts: seq<string>, i: nat)
    ensures PathQuery.PathMatchesForest([a, b, c], parts, i)
         == PathQuery.PathMatches(a, parts, i) + PathQuery.PathMatches(b, parts, i) + PathQuery.PathMatches(c, parts, i)
  {
    assert [a, b, c][..2] == [a, b];
    MatchesTwo(a, b, parts, i);
  }

  /** A leaf the current segment does not name contributes nothing. */
  lemma LeafMisses(e: Element, parts: seq<string>, i: nat)
    requires e.daughters == [] && i < |parts| && e.name != parts[i]
    ensures PathQuery.PathMatches(e, parts, i) == []
  {
  }

  /** A leaf hit by the last segment contributes itself. */
  lemma LeafHits(e: Element, parts: seq<string>)
    requires e.daughters == [] && |parts| > 0 && e.name == parts[|parts| - 1]
    ensures PathQuery.PathMatches(e, parts, |parts| - 1) == [e]
  {
    assert PathQuery.Subtree(e) == [e] + [];
  }

  /** Both componentes, hit by a last segment `componente`. */
  lemma ComponentesHit(parts: seq<string>)
    requires |parts| > 0 && parts[|parts| - 1] == "componente"
    ensures PathQuery.PathMatchesForest(Avaliacao().daughters, parts, |parts| - 1)
         == [Componente("Quizzes", "20%"), Componente("Projeto", "80%")]
  {
    LeafHits(Componente("Quizzes", "20%"), parts);
    LeafHits(Componente("Projeto", "80%"), parts);
    MatchesTwo(Componente("Quizzes", "20%"), Componente("Projeto", "80%"), parts, |parts| - 1);
  }

  lemma AvaliacaoSubtree()
    ensures PathQuery.Subtree(Avaliacao()) == [Avaliacao(), Componente("Quizzes", "20%"), Componente("Projeto", "80%")]
  {
    var q, p := Componente("Quizzes", "20%"), Componente("Projeto", "80%");
    assert PathQuery.Subtree(q) == [q] + [];
    assert PathQuery.Subtree(p) == [p] + [];
    assert [q, p][..1] == [q];
    assert [q][..0] == [];
    assert PathQuery.SubtreeForest([q]) == [] + [q];
    assert PathQuery.SubtreeForest([q, p]) == [q] + [p];
  }

  /** Within fuc, with `avaliacao` as the last segment at index `i`. */
  lemma AvaliacaoFound(parts: seq<string>, i: nat)
    requires i == |parts| - 1 && parts[i] == "avaliacao"
    ensures PathQuery.PathMatchesForest(Fuc().daughters, parts, i)
         == [Avaliacao(), Componente("Quizzes", "20%"), Componente("Projeto", "80%")]
  {
    var fuc := Fuc();
    LeafMisses(fuc.daughters[0], parts, i);
    LeafMisses(fuc.daughters[1], parts, i);
    AvaliacaoSubtree();
    MatchesThree(fuc.daughters[0], fuc.daughters[1], Avaliacao(), parts, i);
  }

  /** Within fuc, with `avaliacao` at index `i` and `componente` last. */
  lemma ComponentesFound(parts: seq<string>, i: nat)
    requires i == |parts| - 2 && parts[i] == "avaliacao" && parts[i + 1] == "componente"
    ensures PathQuery.PathMatchesForest(Fuc().daughters, parts, i)
         == [Componente("Quizzes", "20%"), Componente("Projeto", "80%")]
  {
    var fuc := Fuc();
    ComponentesHit(parts);
    LeafMisses(fuc.daughters[0], parts, i);
    LeafMisses(fuc.daughters[1], parts, i);
    MatchesThree(fuc.daughters[0], fuc.daughters[1], Avaliacao(), parts, i);
  }

  lemma QueryLiterals()
    ensures "plano" + "/" + "fuc" + "/" + "avaliacao" == "plano/fuc/avaliacao"
    ensures "fuc" + "/" + "avaliacao" == "fuc/avaliacao"
    ensures "fuc" + "/" + "avaliacao" + "/" + "componente" == "fuc/avaliacao/componente"
  {
  }

  /** Below plano, with `fuc` as the segment at index `i`. */
  lemma FucFound(parts: seq<string>, i: nat, hits: seq<Element>)
    requires i < |parts| - 1 && parts[i] == "fuc"
    requires hits == PathQuery.PathMatchesForest(Fuc().daughters, parts, i + 1)
    ensures PathQuery.PathMatchesForest(Plano()[0].daughters, parts, i) == hits
  {
    var plano := Plano()[0];
    LeafMisses(plano.daughters[0], parts, i);
    MatchesTwo(plano.daughters[0], Fuc(), parts, i);
  }

  lemma OneRootMatches(root: Element, parts: seq<string>)
    ensures PathQuery.PathMatchesForest([root], parts, 0) == PathQuery.PathMatches(root, parts, 0)
  {
    assert [root][..0] == [];
    assert PathQuery.PathMatchesForest([root], parts, 0) == [] + PathQuery.PathMatches(root, parts, 0);
  }

  /** testXPath (src/tests.kt:514-576): `plano/fuc/avaliacao`. */
  lemma QueryFromRoot()
    ensures PathQuery.Query(Plano(), "plano/fuc/avaliacao")
         == [Avaliacao(), Componente("Quizzes", "20%"), Componente("Projeto", "80%")]
  {
    SegmentsOfThree("plano", "fuc", "avaliacao");
    QueryLiterals();
    var parts := ["plano", "fuc", "avaliacao"];
    AvaliacaoFound(parts, 2);
    FucFound(parts, 1, PathQuery.PathMatchesForest(Fuc().daughters, parts, 2));
    OneRootMatches(Plano()[0], parts);
  }

  /** testXPath: `fuc/avaliacao`, which starts below the root. */
  lemma QueryBelowRoot()
    ensures PathQuery.Query(Plano(), "fuc/avaliacao")
         == [Avaliacao(), Componente("Quizzes", "20%"), Componente("Projeto", "80%")]
  {
    SegmentsOfTwo("fuc", "avaliacao");
    QueryLiterals();
    var parts := ["fuc", "avaliacao"];
    AvaliacaoFound(parts, 1);
    FucFound(parts, 0, PathQuery.PathMatchesForest(Fuc().daughters, parts, 1));
    OneRootMatches(Plano()[0], parts);
  }

  /** testXPath: `fuc/avaliacao/componente`. */
  lemma QueryComponentes()
    ensures PathQuery.Query(Plano(), "fuc/avaliacao/componente")
         == [Componente("Quizzes", "20%"), Componente("Projeto", "80%")]
  {
    SegmentsOfThree("fuc", "avaliacao", "componente");
    QueryLiterals();
    var parts := ["fuc", "avaliacao", "componente"];
    ComponentesFound(parts, 1);
    FucFound(parts, 0, PathQuery.PathMatchesForest(Fuc().daughters, parts, 1));
    OneRootMatches(Plano()[0], parts);
  }

  /** An expression of slashes only has no segments and finds nothing. */
  lemma QueryOfSlash()
    ensures PathQuery.Segments("/") == []
    ensures PathQuery.Query(Plano(), "/") == []
  {
    assert "/"[1..] == "";
    assert PathQuery.Split("/", '/') == ["", ""];
  }

  // The scope of removeEntity (src/Main.kt:20-26) against removeEntityGlobally
  // (src/Main.kt:319-332) and renameEntity (src/Main.kt:268-285): a root
  // `a` whose daughter is called `x`, followed by two roots called `x`.

  /** The local removal takes every root called `x`, and only roots. */
  lemma LocalRemovalTakesEveryRoot(a: Element, x: Element)
    requires a.name != "x" && x.name == "x" && a.daughters == [x]
    ensures Documents.RemovedRoots([a, x, x], "x") == Ok([a])
    ensures Documents.RemovedRoots([a, x, x], "x").value[0].daughters == [x]
  {
    var keep := NotCalled("x");
    assert [a, x, x][1] == x;
    assert Documents.HasRoot([a, x, x], "x");
    assert keep(a) && !keep(x);
    assert [a, x, x][0] == a && [a, x, x][1..] == [x, x];
    assert [x, x][0] == x && [x, x][1..] == [x];
    assert [x][0] == x && [x][1..] == [];
    assert Seqs.Filter([x], keep) == Seqs.Filter([], keep) == [];
    assert Seqs.Filter([x, x], keep) == [];
    assert Seqs.Filter([a, x, x], keep) == [a] + [] == [a];
    assert Documents.RemovedRoots([a, x, x], "x") == Ok(Seqs.Filter([a, x, x], keep));
  }

  /** The global removal takes the first root called `x` and nothing else. */
  lemma GlobalRemovalTakesFirstRoot(a: Element, x: Element)
    requires a.name != "x" && x.name == "x"
    ensures Visitors.RootRemoved([a, x, x], "x") == [a, x]
  {
    Visitors.RemoveEntityGloballyEffect([a, x, x], "x");
    assert [a, x, x][..1] + [a, x, x][2..] == [a, x];
  }

  /** The global rename reaches the daughter the removals leave alone. */
  lemma GlobalRenameReachesDaughters(a: Element, x: Element)
    requires x.name == "x" && a.daughters == [x]
    ensures Visitors.RenamedForest([a, x, x], "x", "y")[0].daughters[0].name == "y"
  {
  }

  /** A local removal of a name no root has fails. */
  lemma LocalRemovalOfMissingRootFails(a: Element, x: Element)
    requires a.name != "b" && x.name == "x"
    ensures Documents.RemovedRoots([a, x, x], "b") == Err(EntityNotFound)
  {
    assert !Documents.HasRoot([a, x, x], "b");
  }
}

/** The objects of the mapping tests (src/tests.kt:580-788) as descriptors,
    with the properties in alphabetical order, and the entities the mapping
    yields for them. */
module MapperFixtures {
  import opened Wrappers
  import opened Names
  import opened Tree
  import opened Mapper
  import opened Fixtures

  function AttributeField(name: string, transformer: Option<nat>, value: string): Field {
    Field(name, false, true, false, transformer, false, Scalar(value))
  }

  function EntityField(name: string, value: Value, listTyped: bool): Field {
    Field(name, false, false, true, None, listTyped, value)
  }

  /** ComponenteAvaliacao(nome, peso), and its variants with AddPercentage on
      `peso` and with the AddIdPostProcessor adapter. */
  function ComponenteObj(nome: string, peso: string, transformer: Option<nat>, adapter: Option<nat>): Obj {
    Obj(Some("ComponenteAvaliacao"), Some("componente"), adapter,
        [AttributeField("nome", None, nome), AttributeField("peso", transformer, peso)])
  }

  /** FUC("M4310", "Programação Avançada", 6.0, "la la...", [Quizzes 20, Projeto 80]).
      `listText` is the list's `toString()`; the mapping never reads it, so
      the fixtures hold for any text. */
  function FucObj(listText: string): Obj {
    Obj(Some("FUC"), Some("fuc"), None, [
      EntityField("avaliacao",
        ListValue(listText, [Some(ComponenteObj("Quizzes", "20", None, None)), Some(ComponenteObj("Projeto", "80", None, None))]),
        true),
      AttributeField("codigo", None, "M4310"),
      EntityField("ects", Scalar("6.0"), false),
      EntityField("nome", Scalar("Programação Avançada"), false),
      Field("observacoes", true, false, false, None, false, Scalar("la la..."))])
  }

  /** AddPercentage: the value's text followed by `%`. */
  function AddPercentage(k: nat, v: Value): string {
    ToText(v) + "%"
  }

  /** AddIdPostProcessor, fresh, on an entity without daughters: `id`="1". */
  function AddFirstId(k: nat, e: Element): Element {
    WithAttribute(e, "id", "1")
  }

  /** The entity names the mapped objects use pass the name check. */
  lemma FixtureNames()
    ensures ValidName("componente") && ValidName("avaliacao") && ValidName("ects")
    ensures ValidName("nome") && ValidName("fuc")
  {
  }

  lemma MapFieldsTwo(acc: Element, f1: Field, f2: Field, t: (nat, Value) -> string, p: (nat, Element) -> Element)
    requires MapField(acc, f1, t, p).Ok?
    ensures MapFields(acc, [f1, f2], t, p) == MapField(MapField(acc, f1, t, p).value, f2, t, p)
  {
    assert [f1, f2][..1] == [f1];
    assert [f1][..0] == [];
    assert MapFields(acc, [], t, p) == Ok(acc);
    assert MapFields(acc, [f1], t, p) == MapField(acc, f1, t, p);
  }

  lemma ComponenteMapping(nome: string, peso: string, transformer: Option<nat>, adapter: Option<nat>,
                          t: (nat, Value) -> string, p: (nat, Element) -> Element)
    ensures BuildEntity(ComponenteObj(nome, peso, transformer, adapter), t, p)
         == Ok(Element("componente", None,
                 [Attribute("nome", nome), Attribute("peso", FieldString(AttributeField("peso", transformer, peso), t))], []))
  {
    var o := ComponenteObj(nome, peso, transformer, adapter);
    var f1, f2 := AttributeField("nome", None, nome), AttributeField("peso", transformer, peso);
    FixtureNames();
    var base := Element("componente", None, [], []);
    assert EntityNameOf(o) == Ok("componente");
    assert NewEntity("componente", None) == Ok(base);
    assert BuildEntity(o, t, p) == MapFields(base, [f1, f2], t, p);
    var a1 := Attribute("nome", nome);
    var a2 := Attribute("peso", FieldString(f2, t));
    AttributeFieldAddsAttribute(base, f1, t, p);
    assert [] + [a1] == [a1];
    MapFieldsTwo(base, f1, f2, t, p);
    AttributeFieldAddsAttribute(base.(attributes := [a1]), f2, t, p);
    assert [a1] + [a2] == [a1, a2];
  }

  /** testSingleComponentMapping (src/tests.kt:600-623). */
  lemma SingleComponentMapping(t: (nat, Value) -> string, p: (nat, Element) -> Element)
    ensures MapObject(ComponenteObj("Quizzes", "20", None, None), t, p) == Ok(Componente("Quizzes", "20"))
  {
    ComponenteMapping("Quizzes", "20", None, None, t, p);
  }

  /** testXmlStringTransformation (src/tests.kt:717-739). */
  lemma StringTransformation(p: (nat, Element) -> Element)
    ensures MapObject(ComponenteObj("Quizzes", "20", Some(0), None), AddPercentage, p) == Ok(Componente("Quizzes", "20%"))
  {
    ComponenteMapping("Quizzes", "20", Some(0), None, AddPercentage, p);
    assert "20" + "%" == "20%";
  }

  /** testXmlAdapter (src/tests.kt:762-785): the post-processor runs after
      the fields, so `id` comes last. */
  lemma AdapterMapping()
    ensures MapObject(ComponenteObj("Quizzes", "20", Some(0), Some(0)), AddPercentage, AddFirstId)
         == Ok(Element("componente", None,
                 [Attribute("nome", "Quizzes"), Attribute("peso", "20%"), Attribute("id", "1")], []))
  {
    ComponenteMapping("Quizzes", "20", Some(0), Some(0), AddPercentage, AddFirstId);
    assert "20" + "%" == "20%";
    var a1, a2, a3 := Attribute("nome", "Quizzes"), Attribute("peso", "20%"), Attribute("id", "1");
    assert [a1, a2] + [a3] == [a1, a2, a3];
  }

  lemma MapFieldsSnoc(acc: Element, fs: seq<Field>, f: Field, t: (nat, Value) -> string, p: (nat, Element) -> Element)
    requires MapFields(acc, fs, t, p).Ok?
    ensures MapFields(acc, fs + [f], t, p) == MapField(MapFields(acc, fs, t, p).value, f, t, p)
  {
    assert (fs + [f])[..|fs|] == fs;
  }

  lemma MapItemsTwo(x: Obj, y: Obj, t: (nat, Value) -> string, p: (nat, Element) -> Element)
    requires MapObject(x, t, p).Ok? && MapObject(y, t, p).Ok?
    ensures MapItems([Some(x), Some(y)], t, p) == Ok([MapObject(x, t, p).value, MapObject(y, t, p).value])
  {
    assert [Some(x), Some(y)][..1] == [Some(x)];
    assert [Some(x)][..0] == [];
    var mx, my := MapObject(x, t, p).value, MapObject(y, t, p).value;
    assert MapItem(Some(x), t, p) == Ok([mx]);
    assert MapItem(Some(y), t, p) == Ok([my]);
    assert MapItems([], t, p) == Ok([]);
    assert MapItems([Some(x)], t, p) == Ok([] + [mx]);
    assert [] + [mx] == [mx];
    assert MapItems([Some(x), Some(y)], t, p) == Ok([mx] + [my]);
    assert [mx] + [my] == [mx, my];
  }

  /** The `avaliacao` property: a wrapper holding both components. */
  lemma AvaliacaoFieldMapping(acc: Element, t: (nat, Value) -> string, p: (nat, Element) -> Element, lt: string)
    ensures MapField(acc, FucObj(lt).fields[0], t, p)
         == Ok(AddDaughter(acc, Element("avaliacao", None, [], [Componente("Quizzes", "20"), Componente("Projeto", "80")])))
  {
    var q, j := ComponenteObj("Quizzes", "20", None, None), ComponenteObj("Projeto", "80", None, None);
    ComponenteMapping("Quizzes", "20", None, None, t, p);
    ComponenteMapping("Projeto", "80", None, None, t, p);
    MapItemsTwo(q, j, t, p);
    FixtureNames();
    var w := Element("avaliacao", None, [], []);
    assert AddDaughters(w, [Componente("Quizzes", "20"), Componente("Projeto", "80")])
        == Element("avaliacao", None, [], [] + [Componente("Quizzes", "20"), Componente("Projeto", "80")]);
    assert [] + [Componente("Quizzes", "20"), Componente("Projeto", "80")]
        == [Componente("Quizzes", "20"), Componente("Projeto", "80")];
  }

  function FucBase(): Element {
    Element("fuc", None, [], [])
  }

  function MappedAvaliacao(): Element {
    Element("avaliacao", None, [], [Componente("Quizzes", "20"), Componente("Projeto", "80")])
  }

  lemma FucFirstField(t: (nat, Value) -> string, p: (nat, Element) -> Element, lt: string)
    ensures MapFields(FucBase(), FucObj(lt).fields[..1], t, p) == Ok(Element("fuc", None, [], [MappedAvaliacao()]))
  {
    var fs := FucObj(lt).fields;
    assert fs[..0] == [] && MapFields(FucBase(), [], t, p) == Ok(FucBase());
    AvaliacaoFieldMapping(FucBase(), t, p, lt);
    MapFieldsSnoc(FucBase(), [], fs[0], t, p);
    assert [] + [MappedAvaliacao()] == [MappedAvaliacao()];
    assert [] + [fs[0]] == fs[..1];
  }

  lemma FucSecondField(t: (nat, Value) -> string, p: (nat, Element) -> Element, lt: string)
    ensures MapFields(FucBase(), FucObj(lt).fields[..2], t, p)
         == Ok(Element("fuc", None, [Attribute("codigo", "M4310")], [MappedAvaliacao()]))
  {
    var fs := FucObj(lt).fields;
    FucFirstField(t, p, lt);
    MapFieldsSnoc(FucBase(), fs[..1], fs[1], t, p);
    assert [] + [Attribute("codigo", "M4310")] == [Attribute("codigo", "M4310")];
    assert fs[..1] + [fs[1]] == fs[..2];
  }

  lemma FucThirdField(t: (nat, Value) -> string, p: (nat, Element) -> Element, lt: string)
    ensures MapFields(FucBase(), FucObj(lt).fields[..3], t, p)
         == Ok(Element("fuc", None, [Attribute("codigo", "M4310")], [MappedAvaliacao(), Element("ects", Some("6.0"), [], [])]))
  {
    var fs := FucObj(lt).fields;
    FucSecondField(t, p, lt);
    MapFieldsSnoc(FucBase(), fs[..2], fs[2], t, p);
    FixtureNames();
    SingularFieldIsTextOnly(Element("fuc", None, [Attribute("codigo", "M4310")], [MappedAvaliacao()]), fs[2], t, p);
    assert [MappedAvaliacao()] + [Element("ects", Some("6.0"), [], [])]
        == [MappedAvaliacao(), Element("ects", Some("6.0"), [], [])];
    assert fs[..2] + [fs[2]] == fs[..3];
  }

  lemma FucFourthField(t: (nat, Value) -> string, p: (nat, Element) -> Element, lt: string)
    ensures MapFields(FucBase(), FucObj(lt).fields[..4], t, p)
         == Ok(Element("fuc", None, [Attribute("codigo", "M4310")], [
              MappedAvaliacao(), Element("ects", Some("6.0"), [], []),
              Element("nome", Some("Programação Avançada"), [], [])]))
  {
    var fs := FucObj(lt).fields;
    FucThirdField(t, p, lt);
    MapFieldsSnoc(FucBase(), fs[..3], fs[3], t, p);
    FixtureNames();
    var ects, nome := Element("ects", Some("6.0"), [], []), Element("nome", Some("Programação Avançada"), [], []);
    assert [MappedAvaliacao(), ects] + [nome] == [MappedAvaliacao(), ects, nome];
    assert fs[..3] + [fs[3]] == fs[..4];
  }

  /** testXmlMapping (src/tests.kt:627-680): `codigo` becomes an attribute,
      `nome` and `ects` text daughters, `avaliacao` a wrapper of the two
      mapped components, and `observacoes` is skipped. */
  lemma FucMapping(t: (nat, Value) -> string, p: (nat, Element) -> Element, lt: string)
    ensures MapObject(FucObj(lt), t, p)
         == Ok(Element("fuc", None, [Attribute("codigo", "M4310")], [
              MappedAvaliacao(),
              Element("ects", Some("6.0"), [], []),
              Element("nome", Some("Programação Avançada"), [], [])]))
  {
    var fs := FucObj(lt).fields;
    FixtureNames();
    assert BuildEntity(FucObj(lt), t, p) == MapFields(FucBase(), fs, t, p);
    FucFourthField(t, p, lt);
    MapFieldsSnoc(FucBase(), fs[..4], fs[4], t, p);
    assert fs[..4] + [fs[4]] == fs;
  }
}
