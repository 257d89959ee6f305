/**
 * The ABNT composer of the `generate-pdf` edge function
 * (supabase/functions/generate-pdf/index.ts): from a filename, the options record and
 * the figure list it builds the page style and the body of the document, and answers
 * with the document and the output filename, or with an error.
 *
 * The document is kept as a sequence of abstract blocks (running header, page number,
 * title page, page break, numbered sections holding paragraphs and figure blocks)
 * rather than as markup text.
 */
module GeneratePdf {
  import opened Wrappers
  import opened FormatOptions
  import opened FiguresList

  // ---------------------------------------------------------------------------------
  // Characters

  /** ASCII lower-casing of one character; every other character is returned unchanged. */
  function LowerAscii(c: char): char {
    if 'A' <= c <= 'Z' then (c as int + 32) as char else c
  }

  /** ASCII upper-casing of one character; every other character is returned unchanged. */
  function UpperAscii(c: char): char {
    if 'a' <= c <= 'z' then (c as int - 32) as char else c
  }

  /** `toUpperCase()`, on the ASCII letters. */
  function ToUpperCase(s: string): (r: string)
    ensures |r| == |s|
  {
    seq(|s|, i requires 0 <= i < |s| => UpperAscii(s[i]))
  }

  /**
   * The upper-cased name keeps every character up to case, holds no lower-case ASCII
   * letter, and upper-casing it again changes nothing.
   */
  lemma ToUpperCaseProperties(s: string)
    ensures forall i :: 0 <= i < |s| ==> LowerAscii(ToUpperCase(s)[i]) == LowerAscii(s[i])
    ensures forall i :: 0 <= i < |s| ==> !('a' <= ToUpperCase(s)[i] <= 'z')
    ensures ToUpperCase(ToUpperCase(s)) == ToUpperCase(s)
  {
  }

  // ---------------------------------------------------------------------------------
  // The extension strip: `filename.replace(/\.(docx?)/i, '')`

  /** The pattern `\.doc`, case-insensitively, starts at position `i`. */
  predicate DocAt(s: string, i: nat) {
    && i + 4 <= |s|
    && s[i] == '.'
    && LowerAscii(s[i + 1]) == 'd'
    && LowerAscii(s[i + 2]) == 'o'
    && LowerAscii(s[i + 3]) == 'c'
  }

  /** The name holds a `.doc` somewhere, in any case. */
  predicate HasDoc(s: string) {
    exists i: nat :: i < |s| && DocAt(s, i)
  }

  /** The length of the match at `i`: the greedy `x?` takes a following `x`/`X`. */
  function MatchLength(s: string, i: nat): (n: nat)
    requires DocAt(s, i)
    ensures n == 4 || n == 5
    ensures i + n <= |s|
    ensures n == 5 <==> i + 4 < |s| && LowerAscii(s[i + 4]) == 'x'
  {
    if i + 4 < |s| && LowerAscii(s[i + 4]) == 'x' then 5 else 4
  }

  /** The leftmost match at or after `from`, as the regular expression engine scans for it. */
  function FindDoc(s: string, from: nat): (r: Option<nat>)
    requires from <= |s|
    ensures r.Some? ==> from <= r.value && DocAt(s, r.value)
    ensures r.Some? ==> forall j: nat :: from <= j < r.value ==> !DocAt(s, j)
    ensures r.None? ==> forall j: nat :: from <= j ==> !DocAt(s, j)
    decreases |s| - from
  {
    if from + 4 > |s| then None
    else if DocAt(s, from) then Some(from)
    else FindDoc(s, from + 1)
  }

  /**
   * `stripDocExt`: removes the first `.doc` or `.docx`, in any case, wherever it stands
   * (the pattern is neither anchored nor global). The name is unchanged exactly when it
   * holds no such match, and otherwise loses 4 or 5 characters.
   */
  function StripDocExt(s: string): (r: string)
    ensures r == s <==> !HasDoc(s)
    ensures HasDoc(s) ==> |r| == |s| - 4 || |r| == |s| - 5
  {
    match FindDoc(s, 0)
    case None => s
    case Some(i) => s[..i] + s[i + MatchLength(s, i)..]
  }

  /** What the strip removes: the match at the leftmost position, and nothing else. */
  lemma StripRemovesLeftmostMatch(s: string, i: nat)
    requires DocAt(s, i)
    requires forall j: nat :: j < i ==> !DocAt(s, j)
    ensures StripDocExt(s) == s[..i] + s[i + MatchLength(s, i)..]
  {
    var r := FindDoc(s, 0);
    assert r.Some?;
    assert r.value == i;
  }

  /** A Word extension: `.doc` or `.docx` in any mixture of cases. */
  predicate IsWordExtension(ext: string) {
    && (|ext| == 4 || |ext| == 5)
    && DocAt(ext, 0)
    && (|ext| == 5 ==> LowerAscii(ext[4]) == 'x')
  }

  /** Appending a Word extension to a name free of `.doc` and stripping gives back the name. */
  lemma {:induction false} StripAppendedExtension(base: string, ext: string)
    requires !HasDoc(base) && IsWordExtension(ext)
    ensures StripDocExt(base + ext) == base
  {
    var s := base + ext;
    var n := |base|;
    assert DocAt(s, n) by {
      assert s[n..n + 4] == ext[..4];
      assert s[n] == ext[0] && s[n + 1] == ext[1] && s[n + 2] == ext[2] && s[n + 3] == ext[3];
    }
    forall j: nat | j < n ensures !DocAt(s, j) {
      if j + 4 <= n {
        assert s[j] == base[j] && s[j + 1] == base[j + 1] && s[j + 2] == base[j + 2] && s[j + 3] == base[j + 3];
        assert !DocAt(base, j);
      }
    }
    StripRemovesLeftmostMatch(s, n);
    assert MatchLength(s, n) == |ext|;
    assert s[..n] == base;
  }

  /** Because the pattern is unanchored, a `.doc` inside the name goes, not the extension. */
  lemma StripIsUnanchored()
    ensures StripDocExt("my.document.docx") == "myument.docx"
  {
    var s := "my.document.docx";
    assert s[0] != '.' && s[1] != '.';
    assert s[2] == '.' && s[3] == 'd' && s[4] == 'o' && s[5] == 'c' && s[6] == 'u';
    assert DocAt(s, 2) && MatchLength(s, 2) == 4;
    StripRemovesLeftmostMatch(s, 2);
    assert s[..2] + s[6..] == "myument.docx";
  }

  /** The output filename: the stripped name followed by `_ABNT.pdf`. */
  function OutputFilename(filename: string): (r: string)
    ensures |r| == |StripDocExt(filename)| + 9 && r[|r| - 9..] == "_ABNT.pdf"
    ensures r[..|StripDocExt(filename)|] == StripDocExt(filename)
  {
    StripDocExt(filename) + "_ABNT.pdf"
  }

  /** A Word file named `base.docx` (any case, or `.doc`) is exported as `base_ABNT.pdf`. */
  lemma OutputFilenameOfWordFile(base: string, ext: string)
    requires !HasDoc(base) && IsWordExtension(ext)
    ensures OutputFilename(base + ext) == base + "_ABNT.pdf"
  {
    StripAppendedExtension(base, ext);
  }

  // ---------------------------------------------------------------------------------
  // Margins and line height

  /** Page margins in millimetres, clockwise from the top as CSS lists them. */
  datatype MarginBox = MarginBox(top: nat, right: nat, bottom: nat, left: nat)

  /**
   * The margins each choice stands for, as the margin select describes them:
   * ABNT is 3cm top and left, 2cm bottom and right; anything else is 2.5cm all round.
   */
  function PageMargins(margins: string): MarginBox {
    if margins == "abnt" then MarginBox(30, 20, 20, 30) else MarginBox(25, 25, 25, 25)
  }

  function DigitChar(d: nat): char
    requires d < 10
  {
    "0123456789"[d]
  }

  /** Decimal digits of a natural number. */
  function Digits(n: nat): string
    decreases n
  {
    if n < 10 then [DigitChar(n)] else Digits(n / 10) + [DigitChar(n % 10)]
  }

  /** A CSS length in centimetres for a whole number of millimetres ("3cm", "2.5cm"). */
  function Centimetres(mm: nat): string {
    Digits(mm / 10) + (if mm % 10 == 0 then "" else "." + Digits(mm % 10)) + "cm"
  }

  /** The `margin` declaration for a box: one value when uniform, else top right bottom left. */
  function CssMargin(b: MarginBox): string {
    "margin: "
    + (if b.top == b.right == b.bottom == b.left then Centimetres(b.top)
       else Centimetres(b.top) + " " + Centimetres(b.right) + " " + Centimetres(b.bottom) + " " + Centimetres(b.left))
    + ";"
  }

  /**
   * `marginStyles`: the ABNT rule exactly for `'abnt'`; every other value, recognised or
   * not, gets the uniform 2.5cm rule. Either way it declares the margins the option stands for.
   */
  function MarginRule(margins: string): (r: string)
    ensures r == CssMargin(PageMargins(margins))
    ensures r == "margin: 3cm 2cm 2cm 3cm;" <==> margins == "abnt"
    ensures r == "margin: 2.5cm;" <==> margins != "abnt"
  {
    if margins == "abnt" then "margin: 3cm 2cm 2cm 3cm;" else "margin: 2.5cm;"
  }

  /**
   * `lineHeight`: '1.5' gives '1.8', '2.0' gives '2.4', and every other value,
   * '1.0' and unrecognised ones alike, gives '1.4'.
   */
  function LineHeight(lineSpacing: string): (r: string)
    ensures r == "1.8" <==> lineSpacing == "1.5"
    ensures r == "2.4" <==> lineSpacing == "2.0"
    ensures r == "1.4" <==> lineSpacing != "1.5" && lineSpacing != "2.0"
  {
    if lineSpacing == "1.5" then "1.8" else if lineSpacing == "2.0" then "2.4" else "1.4"
  }

  /**
   * The three spacings the select offers get three different line heights, growing with the
   * spacing; a value the select does not offer is laid out like single spacing.
   */
  lemma LineHeightOnChoices(other: string)
    requires other !in LineSpacingChoices
    ensures LineHeight(LineSpacingChoices[1]) == "1.4"
    ensures LineHeight(LineSpacingChoices[0]) == "1.8"
    ensures LineHeight(LineSpacingChoices[2]) == "2.4"
    ensures LineHeight(other) == LineHeight("1.0")
  {
  }

  // ---------------------------------------------------------------------------------
  // The document

  /** A caption: "Figura {number} - {text}", followed by its source line. */
  datatype Caption = Caption(number: int, text: string, source: string)

  /** One figure: the grey placeholder "[ Imagem {placeholderId} ]" and its optional caption. */
  datatype FigureBlock = FigureBlock(placeholderId: int, caption: Option<Caption>)

  /** The fixed paragraphs of the document; ParagraphText gives their wording. */
  datatype Paragraph =
    | SettingsSummary(fontFamily: string, fontSize: string, lineSpacing: string)
    | Filler
    | FiguresIntro(autoCaptions: bool)
    | Closing

  /** What a section holds. */
  datatype Content = Para(paragraph: Paragraph) | Fig(block: FigureBlock)

  /** The top-level blocks of the body, in document order. */
  datatype Block =
    | RunningHeader(text: string)
    | PageNumber(pageLabel: string)
    | TitlePage(heading: string, subtitle: string)
    | PageBreak
    | Section(number: nat, heading: string, body: seq<Content>)

  /** The `@page` and `body` rules. */
  datatype PageStyle = PageStyle(marginRule: string, fontFamily: string, fontSize: string, lineHeight: string)

  /** The generated document: its `<title>`, its style and its body. */
  datatype HtmlDocument = HtmlDocument(title: string, style: PageStyle, body: seq<Block>)

  const Attribution: string := "Fonte: Elaborado pelo autor (2024)"
  const Subtitle: string := "Documento formatado conforme normas ABNT"
  const Introduction: string := "INTRODUÇÃO"
  const FiguresHeading: string := "FIGURAS"
  const Conclusion: string := "CONSIDERAÇÕES FINAIS"

  const SummaryLead: string :=
    "Este documento foi automaticamente formatado seguindo as normas da Associação Brasileira "
    + "de Normas Técnicas (ABNT). A formatação inclui fonte "
  const SummarySize: string := " tamanho "
  const SummarySpacing: string := ", espaçamento entre linhas de "
  const SummaryTail: string := ", e margens conforme especificado."
  const FiguresLead: string := "A seguir são apresentadas as figuras detectadas no documento original, "
  const WithCaptions: string := "com legendas geradas automaticamente conforme normas ABNT."
  const WithoutCaptions: string := "sem legendas automáticas."
  const FillerText: string :=
    "Lorem ipsum dolor sit amet, consectetur adipiscing elit. Sed do eiusmod tempor incididunt "
    + "ut labore et dolore magna aliqua. Ut enim ad minim veniam, quis nostrud exercitation "
    + "ullamco laboris nisi ut aliquip ex ea commodo consequat."
  const ClosingText: string :=
    "O documento foi processado e convertido para o formato PDF mantendo todas as "
    + "configurações de formatação ABNT selecionadas pelo usuário."

  /** The wording of each paragraph, with the line breaks of the template folded into spaces. */
  function ParagraphText(p: Paragraph): (t: string)
    ensures p.SettingsSummary? ==> OccursAt(t, SummaryLead, 0)
    ensures p.FiguresIntro? ==> OccursAt(t, FiguresLead, 0)
  {
    match p
    case SettingsSummary(fontFamily, fontSize, lineSpacing) =>
      OccursAtFront(SummaryLead, fontFamily + (SummarySize + (fontSize + (SummarySpacing + (lineSpacing + SummaryTail)))));
      SummaryLead + (fontFamily + (SummarySize + (fontSize + (SummarySpacing + (lineSpacing + SummaryTail)))))
    case Filler => FillerText
    case FiguresIntro(autoCaptions) =>
      OccursAtFront(FiguresLead, if autoCaptions then WithCaptions else WithoutCaptions);
      FiguresLead + (if autoCaptions then WithCaptions else WithoutCaptions)
    case Closing => ClosingText
  }

  /** `s` holds `part` starting at position `k`. */
  predicate OccursAt(s: string, part: string, k: nat) {
    k + |part| <= |s| && s[k..k + |part|] == part
  }

  lemma OccursAtFront(x: string, y: string)
    ensures OccursAt(x + y, x, 0)
  {
    assert (x + y)[..|x|] == x;
  }

  lemma OccursAtShift(a: string, b: string, part: string, k: nat)
    requires OccursAt(b, part, k)
    ensures OccursAt(a + b, part, |a| + k)
  {
    assert (a + b)[|a| + k..|a| + k + |part|] == b[k..k + |part|];
  }

  /**
   * In `lead + f + s1 + z + s2 + l + tail` with non-empty separators, `f`, `z` and `l`
   * occur in that order.
   */
  lemma ThreeInOrder(lead: string, f: string, s1: string, z: string, s2: string, l: string, tail: string)
    requires |s1| > 0 && |s2| > 0
    ensures var t := lead + (f + (s1 + (z + (s2 + (l + tail)))));
      var a, b, c := |lead|, |lead| + |f| + |s1|, |lead| + |f| + |s1| + |z| + |s2|;
      a < b < c <= |t| && OccursAt(t, f, a) && OccursAt(t, z, b) && OccursAt(t, l, c)
  {
    FirstOccurs(lead, f, s1 + (z + (s2 + (l + tail))));
    SecondOccurs(lead, f, s1, z, s2 + (l + tail));
    ThirdOccurs(lead, f, s1, z, s2, l, tail);
  }

  lemma FirstOccurs(lead: string, f: string, rest: string)
    ensures OccursAt(lead + (f + rest), f, |lead|)
  {
    OccursAtFront(f, rest);
    OccursAtShift(lead, f + rest, f, 0);
  }

  lemma SecondOccurs(lead: string, f: string, s1: string, z: string, rest: string)
    ensures OccursAt(lead + (f + (s1 + (z + rest))), z, |lead| + |f| + |s1|)
  {
    OccursAtFront(z, rest);
    OccursAtShift(s1, z + rest, z, 0);
    OccursAtShift(f, s1 + (z + rest), z, |s1|);
    OccursAtShift(lead, f + (s1 + (z + rest)), z, |f| + |s1|);
  }

  lemma ThirdOccurs(lead: string, f: string, s1: string, z: string, s2: string, l: string, tail: string)
    ensures OccursAt(lead + (f + (s1 + (z + (s2 + (l + tail))))), l, |lead| + |f| + |s1| + |z| + |s2|)
  {
    var t3 := z + (s2 + (l + tail));
    OccursAtFront(l, tail);
    OccursAtShift(s2, l + tail, l, 0);
    OccursAtShift(z, s2 + (l + tail), l, |s2|);
    SecondShift(lead, f, s1, t3, l, |z| + |s2|);
  }

  lemma SecondShift(lead: string, f: string, s1: string, rest: string, part: string, k: nat)
    requires OccursAt(rest, part, k)
    ensures OccursAt(lead + (f + (s1 + rest)), part, |lead| + |f| + |s1| + k)
  {
    OccursAtShift(s1, rest, part, k);
    OccursAtShift(f, s1 + rest, part, |s1| + k);
    OccursAtShift(lead, f + (s1 + rest), part, |f| + |s1| + k);
  }

  /** The settings paragraph names the font, the size and the spacing verbatim, in that order. */
  lemma SettingsSummaryNamesSettings(fontFamily: string, fontSize: string, lineSpacing: string)
    ensures var t := ParagraphText(SettingsSummary(fontFamily, fontSize, lineSpacing));
      exists a: nat, b: nat, c: nat :: a < b < c <= |t|
        && OccursAt(t, fontFamily, a) && OccursAt(t, fontSize, b) && OccursAt(t, lineSpacing, c)
  {
    assert |SummarySize| > 0 && |SummarySpacing| > 0;
    ThreeInOrder(SummaryLead, fontFamily, SummarySize, fontSize, SummarySpacing, lineSpacing, SummaryTail);
    var a := |SummaryLead|;
    var b := a + |fontFamily| + |SummarySize|;
    var c := b + |fontSize| + |SummarySpacing|;
    var t := ParagraphText(SettingsSummary(fontFamily, fontSize, lineSpacing));
    assert a < b < c <= |t| && OccursAt(t, fontFamily, a) && OccursAt(t, fontSize, b) && OccursAt(t, lineSpacing, c);
  }

  /** The figures sentence says whether captions were generated: the two wordings differ. */
  lemma FiguresIntroDependsOnCaptions()
    ensures ParagraphText(FiguresIntro(true)) != ParagraphText(FiguresIntro(false))
  {
    assert |WithCaptions| != |WithoutCaptions|;
  }

  /** The block for one figure; the caption is numbered with the figure's id. */
  function FigureBlockFor(f: Figure, autoCaptions: bool): (b: FigureBlock)
    ensures b.placeholderId == f.id
    ensures b.caption.Some? <==> autoCaptions
    ensures b.caption.Some? ==> b.caption.value.number == f.id && b.caption.value.text == f.name
    ensures b.caption.Some? ==> b.caption.value.source == Attribution
  {
    FigureBlock(f.id, if autoCaptions then Some(Caption(f.id, f.name, Attribution)) else None)
  }

  /** `figuresHtml`: one block per figure, in list order. */
  function FiguresHtml(figs: seq<Figure>, autoCaptions: bool): (cs: seq<Content>)
    ensures |cs| == |figs|
    ensures forall i :: 0 <= i < |figs| ==> cs[i].Fig? && cs[i].block.placeholderId == figs[i].id
    ensures forall i :: 0 <= i < |figs| ==> (cs[i].block.caption.Some? <==> autoCaptions)
  {
    seq(|figs|, i requires 0 <= i < |figs| => Fig(FigureBlockFor(figs[i], autoCaptions)))
  }

  function IntroSection(o: AbntOptions): Block {
    Section(1, Introduction, [Para(SettingsSummary(o.fontFamily, o.fontSize, o.lineSpacing)), Para(Filler)])
  }

  function FiguresSection(o: AbntOptions, figs: seq<Figure>): Block {
    Section(2, FiguresHeading, [Para(FiguresIntro(o.autoCaptions))] + FiguresHtml(figs, o.autoCaptions))
  }

  function ClosingSection(figs: seq<Figure>): Block {
    Section(if |figs| > 0 then 3 else 2, Conclusion, [Para(Closing)])
  }

  /** The numbered sections: introduction, figures when there are any, final remarks. */
  function SectionsFor(o: AbntOptions, figs: seq<Figure>): (secs: seq<Block>)
    ensures |secs| == if |figs| > 0 then 3 else 2
    ensures forall i :: 0 <= i < |secs| ==> secs[i].Section? && secs[i].number == i + 1
  {
    [IntroSection(o)] + (if |figs| > 0 then [FiguresSection(o, figs)] else []) + [ClosingSection(figs)]
  }

  /** Everything before the sections: header, page number, title page and page break. */
  function FrontMatter(name: string, o: AbntOptions): (front: seq<Block>)
    ensures |front| == (if o.headerFooter then 1 else 0) + (if o.pageNumbers then 1 else 0) + 2
    ensures front[|front| - 1] == PageBreak && front[|front| - 2].TitlePage?
    ensures forall i :: 0 <= i < |front| ==> !front[i].Section?
  {
    (if o.headerFooter then [RunningHeader(name)] else [])
    + (if o.pageNumbers then [PageNumber("1")] else [])
    + [TitlePage(ToUpperCase(name), Subtitle), PageBreak]
  }

  /** The `@page` and `body` rules for the options. */
  function StyleFor(o: AbntOptions): (st: PageStyle)
    ensures st.fontFamily == o.fontFamily && st.fontSize == o.fontSize
    ensures st.marginRule == CssMargin(PageMargins(o.margins))
    ensures st.lineHeight == "1.8" || st.lineHeight == "2.4" || st.lineHeight == "1.4"
  {
    PageStyle(MarginRule(o.margins), o.fontFamily, o.fontSize, LineHeight(o.lineSpacing))
  }

  /** `htmlContent`: the whole document for one request. */
  function Compose(filename: string, o: AbntOptions, figs: seq<Figure>): (doc: HtmlDocument)
    ensures doc.title == StripDocExt(filename)
    ensures |doc.body| == (if o.headerFooter then 1 else 0) + (if o.pageNumbers then 1 else 0) + 2
                         + (if |figs| > 0 then 3 else 2)
    ensures doc.body[|doc.body| - 1] == ClosingSection(figs)
  {
    var name := StripDocExt(filename);
    HtmlDocument(name, StyleFor(o), FrontMatter(name, o) + SectionsFor(o, figs))
  }

  // ---------------------------------------------------------------------------------
  // Reading a document back

  datatype BlockKind = HeaderKind | PageNumberKind | TitleKind | BreakKind | SectionKind

  function KindOf(b: Block): BlockKind {
    match b
    case RunningHeader(_) => HeaderKind
    case PageNumber(_) => PageNumberKind
    case TitlePage(_, _) => TitleKind
    case PageBreak => BreakKind
    case Section(_, _, _) => SectionKind
  }

  /** The blocks of one kind, in document order. */
  function Select(body: seq<Block>, k: BlockKind): seq<Block>
    decreases |body|
  {
    if body == [] then []
    else (if KindOf(body[0]) == k then [body[0]] else []) + Select(body[1..], k)
  }

  lemma {:induction false} SelectAppend(a: seq<Block>, b: seq<Block>, k: BlockKind)
    ensures Select(a + b, k) == Select(a, k) + Select(b, k)
    decreases |a|
  {
    if a == [] {
      assert a + b == b;
    } else {
      var head: seq<Block> := if KindOf(a[0]) == k then [a[0]] else [];
      assert (a + b)[0] == a[0];
      assert (a + b)[1..] == a[1..] + b;
      assert Select(a + b, k) == head + Select(a[1..] + b, k);
      assert Select(a, k) == head + Select(a[1..], k);
      SelectAppend(a[1..], b, k);
      assert head + (Select(a[1..], k) + Select(b, k)) == (head + Select(a[1..], k)) + Select(b, k);
    }
  }

  lemma SelectSingle(x: Block, k: BlockKind)
    ensures Select([x], k) == if KindOf(x) == k then [x] else []
  {
    assert [x][1..] == [];
  }

  /** The figure blocks in a run of section content, in order. */
  function FiguresOf(cs: seq<Content>): seq<FigureBlock>
    decreases |cs|
  {
    if cs == [] then []
    else (if cs[0].Fig? then [cs[0].block] else []) + FiguresOf(cs[1..])
  }

  /** The figure blocks of every section of a body, in document order. */
  function FigureBlocksIn(body: seq<Block>): seq<FigureBlock>
    decreases |body|
  {
    if body == [] then []
    else (if body[0].Section? then FiguresOf(body[0].body) else []) + FigureBlocksIn(body[1..])
  }

  lemma {:induction false} FiguresOfAppend(a: seq<Content>, b: seq<Content>)
    ensures FiguresOf(a + b) == FiguresOf(a) + FiguresOf(b)
    decreases |a|
  {
    if a == [] {
      assert a + b == b;
    } else {
      var head: seq<FigureBlock> := if a[0].Fig? then [a[0].block] else [];
      assert (a + b)[0] == a[0];
      assert (a + b)[1..] == a[1..] + b;
      assert FiguresOf(a + b) == head + FiguresOf(a[1..] + b);
      assert FiguresOf(a) == head + FiguresOf(a[1..]);
      FiguresOfAppend(a[1..], b);
      assert head + (FiguresOf(a[1..]) + FiguresOf(b)) == (head + FiguresOf(a[1..])) + FiguresOf(b);
    }
  }

  lemma {:induction false} FigureBlocksInAppend(a: seq<Block>, b: seq<Block>)
    ensures FigureBlocksIn(a + b) == FigureBlocksIn(a) + FigureBlocksIn(b)
    decreases |a|
  {
    if a == [] {
      assert a + b == b;
    } else {
      var head: seq<FigureBlock> := if a[0].Section? then FiguresOf(a[0].body) else [];
      assert (a + b)[0] == a[0];
      assert (a + b)[1..] == a[1..] + b;
      assert FigureBlocksIn(a + b) == head + FigureBlocksIn(a[1..] + b);
      assert FigureBlocksIn(a) == head + FigureBlocksIn(a[1..]);
      FigureBlocksInAppend(a[1..], b);
      assert head + (FigureBlocksIn(a[1..]) + FigureBlocksIn(b)) == (head + FigureBlocksIn(a[1..])) + FigureBlocksIn(b);
    }
  }

  /** Content made only of figure blocks yields exactly those blocks. */
  lemma {:induction false} FiguresOfAllFigures(cs: seq<Content>)
    requires forall c :: c in cs ==> c.Fig?
    ensures |FiguresOf(cs)| == |cs|
    ensures forall i :: 0 <= i < |cs| ==> FiguresOf(cs)[i] == cs[i].block
    decreases |cs|
  {
    if cs != [] {
      FiguresOfAllFigures(cs[1..]);
    }
  }

  lemma FigureBlocksInSingle(x: Block)
    ensures FigureBlocksIn([x]) == if x.Section? then FiguresOf(x.body) else []
  {
    assert [x][1..] == [];
  }

  /** Reading blocks of one kind back out of a composed body: front matter first, then sections. */
  lemma ComposeSelect(filename: string, o: AbntOptions, figs: seq<Figure>, k: BlockKind)
    ensures Select(Compose(filename, o, figs).body, k)
      == Select(FrontMatter(StripDocExt(filename), o), k) + Select(SectionsFor(o, figs), k)
  {
    SelectAppend(FrontMatter(StripDocExt(filename), o), SectionsFor(o, figs), k);
  }

  /** The front matter holds no section; the section list holds nothing but sections. */
  lemma SelectFrontMatter(name: string, o: AbntOptions, k: BlockKind)
    ensures Select(FrontMatter(name, o), k) ==
      if k == HeaderKind then (if o.headerFooter then [RunningHeader(name)] else [])
      else if k == PageNumberKind then (if o.pageNumbers then [PageNumber("1")] else [])
      else if k == TitleKind then [TitlePage(ToUpperCase(name), Subtitle)]
      else if k == BreakKind then [PageBreak]
      else []
  {
    var h: seq<Block> := if o.headerFooter then [RunningHeader(name)] else [];
    var p: seq<Block> := if o.pageNumbers then [PageNumber("1")] else [];
    SelectFrontParts(h, p, TitlePage(ToUpperCase(name), Subtitle), k);
  }

  /** Front matter in general: headers, then page numbers, then a title page and a break. */
  lemma SelectFrontParts(h: seq<Block>, p: seq<Block>, t: Block, k: BlockKind)
    requires forall b :: b in h ==> KindOf(b) == HeaderKind
    requires forall b :: b in p ==> KindOf(b) == PageNumberKind
    requires KindOf(t) == TitleKind
    ensures Select(h + p + [t, PageBreak], k) ==
      if k == HeaderKind then h
      else if k == PageNumberKind then p
      else if k == TitleKind then [t]
      else if k == BreakKind then [PageBreak]
      else []
  {
    var tail: seq<Block> := [t, PageBreak];
    assert tail == [t] + [PageBreak];
    SelectAppend(h + p, tail, k);
    SelectAppend(h, p, k);
    SelectAppend([t], [PageBreak], k);
    SelectSingle(t, k);
    SelectSingle(PageBreak, k);
    SelectUniform(h, HeaderKind, k);
    SelectUniform(p, PageNumberKind, k);
    var sel := Select(h, k) + Select(p, k) + (Select([t], k) + Select([PageBreak], k));
    assert Select(h + p + tail, k) == sel;
    match k {
      case HeaderKind => assert sel == h + [] + ([] + []);
      case PageNumberKind => assert sel == [] + p + ([] + []);
      case TitleKind => assert sel == [] + [] + ([t] + []);
      case BreakKind => assert sel == [] + [] + ([] + [PageBreak]);
      case SectionKind => assert sel == [] + [] + ([] + []);
    }
  }

  /** A run of blocks all of one kind is kept whole by its own kind and dropped by any other. */
  lemma {:induction false} SelectUniform(xs: seq<Block>, kind: BlockKind, k: BlockKind)
    requires forall b :: b in xs ==> KindOf(b) == kind
    ensures Select(xs, k) == if k == kind then xs else []
    decreases |xs|
  {
    if xs != [] {
      assert xs[0] in xs;
      assert forall b :: b in xs[1..] ==> b in xs;
      SelectUniform(xs[1..], kind, k);
      assert xs == [xs[0]] + xs[1..];
    }
  }

  lemma SelectSections(o: AbntOptions, figs: seq<Figure>, k: BlockKind)
    ensures Select(SectionsFor(o, figs), k) == if k == SectionKind then SectionsFor(o, figs) else []
  {
    var mid: seq<Block> := if |figs| > 0 then [FiguresSection(o, figs)] else [];
    SelectAppend([IntroSection(o)] + mid, [ClosingSection(figs)], k);
    SelectAppend([IntroSection(o)], mid, k);
    SelectSingle(IntroSection(o), k);
    SelectSingle(ClosingSection(figs), k);
    if |figs| > 0 { SelectSingle(FiguresSection(o, figs), k); }
  }

  /**
   * The title is the stripped name; the title page heading is that name upper-cased; the
   * running header holding the stripped name is there iff `headerFooter`; the page-number
   * block with the constant "1" is there iff `pageNumbers`.
   */
  lemma ComposeTitleHeaderPageNumber(filename: string, o: AbntOptions, figs: seq<Figure>)
    ensures var doc := Compose(filename, o, figs);
      && doc.title == StripDocExt(filename)
      && Select(doc.body, TitleKind) == [TitlePage(ToUpperCase(StripDocExt(filename)), Subtitle)]
      && Select(doc.body, HeaderKind) == (if o.headerFooter then [RunningHeader(StripDocExt(filename))] else [])
      && Select(doc.body, PageNumberKind) == (if o.pageNumbers then [PageNumber("1")] else [])
  {
    ComposeSelectFront(filename, o, figs, TitleKind);
    ComposeSelectFront(filename, o, figs, HeaderKind);
    ComposeSelectFront(filename, o, figs, PageNumberKind);
    SelectFrontMatter(StripDocExt(filename), o, TitleKind);
    SelectFrontMatter(StripDocExt(filename), o, HeaderKind);
    SelectFrontMatter(StripDocExt(filename), o, PageNumberKind);
  }

  /** Blocks of a kind other than sections come from the front matter alone. */
  lemma ComposeSelectFront(filename: string, o: AbntOptions, figs: seq<Figure>, k: BlockKind)
    requires k != SectionKind
    ensures Select(Compose(filename, o, figs).body, k) == Select(FrontMatter(StripDocExt(filename), o), k)
  {
    ComposeSelect(filename, o, figs, k);
    SelectSections(o, figs, k);
  }

  /** The sections read back from the composed body are exactly those SectionsFor lists. */
  lemma ComposeSections(filename: string, o: AbntOptions, figs: seq<Figure>)
    ensures Select(Compose(filename, o, figs).body, SectionKind) == SectionsFor(o, figs)
  {
    ComposeSelect(filename, o, figs, SectionKind);
    SelectFrontMatter(StripDocExt(filename), o, SectionKind);
    SelectSections(o, figs, SectionKind);
  }

  /**
   * Section numbering: "1 INTRODUÇÃO" always comes first, "2 FIGURAS" is there iff there
   * are figures, and the final remarks close the document numbered 3 or 2, so the numbers
   * run 1, 2, ... without a gap.
   */
  lemma ComposeSectionNumbering(filename: string, o: AbntOptions, figs: seq<Figure>)
    ensures var secs := Select(Compose(filename, o, figs).body, SectionKind);
      && |secs| == (if |figs| > 0 then 3 else 2)
      && (forall i :: 0 <= i < |secs| ==> secs[i].Section? && secs[i].number == i + 1)
      && secs[0].heading == Introduction
      && secs[|secs| - 1].heading == Conclusion
      && ((exists i :: 0 <= i < |secs| && secs[i].heading == FiguresHeading) <==> |figs| > 0)
  {
    ComposeSections(filename, o, figs);
    SectionsNumbering(o, figs);
  }

  lemma SectionsNumbering(o: AbntOptions, figs: seq<Figure>)
    ensures var secs := SectionsFor(o, figs);
      && |secs| == (if |figs| > 0 then 3 else 2)
      && (forall i :: 0 <= i < |secs| ==> secs[i].Section? && secs[i].number == i + 1)
      && secs[0].heading == Introduction
      && secs[|secs| - 1].heading == Conclusion
      && ((exists i :: 0 <= i < |secs| && secs[i].heading == FiguresHeading) <==> |figs| > 0)
  {
    assert |Introduction| != |FiguresHeading| && |Conclusion| != |FiguresHeading|;
    if |figs| > 0 {
      var secs := [IntroSection(o), FiguresSection(o, figs), ClosingSection(figs)];
      assert SectionsFor(o, figs) == secs;
      assert secs[1].heading == FiguresHeading;
    } else {
      var secs := [IntroSection(o), ClosingSection(figs)];
      assert SectionsFor(o, figs) == secs;
      assert forall i :: 0 <= i < |secs| ==> secs[i].heading != FiguresHeading;
    }
  }

  /**
   * One figure block per figure, in list order, whose placeholder shows the figure's id;
   * the caption "Figura {id} - {name}" with its source line is there iff `autoCaptions`,
   * and it is numbered with the figure's id, not its position.
   */
  lemma ComposeFigureBlocks(filename: string, o: AbntOptions, figs: seq<Figure>)
    ensures var blocks := FigureBlocksIn(Compose(filename, o, figs).body);
      && |blocks| == |figs|
      && (forall i :: 0 <= i < |figs| ==> blocks[i].placeholderId == figs[i].id)
      && (forall i :: 0 <= i < |figs| ==> (blocks[i].caption.Some? <==> o.autoCaptions))
      && (forall i :: 0 <= i < |figs| && o.autoCaptions ==>
            blocks[i].caption == Some(Caption(figs[i].id, figs[i].name, Attribution)))
  {
    var front := FrontMatter(StripDocExt(filename), o);
    var html := FiguresHtml(figs, o.autoCaptions);
    FrontMatterHasNoFigures(StripDocExt(filename), o);
    FigureBlocksInAppend(front, SectionsFor(o, figs));
    SectionsFigureBlocks(o, figs);
    FiguresOfAllFigures(html);
    var blocks := FigureBlocksIn(Compose(filename, o, figs).body);
    assert blocks == FiguresOf(html);
    forall i | 0 <= i < |figs| ensures blocks[i] == FigureBlockFor(figs[i], o.autoCaptions) {
      assert html[i] == Fig(FigureBlockFor(figs[i], o.autoCaptions));
    }
  }

  lemma FrontMatterHasNoFigures(name: string, o: AbntOptions)
    ensures FigureBlocksIn(FrontMatter(name, o)) == []
  {
    var front := FrontMatter(name, o);
    forall b | b in front ensures !b.Section? {
    }
    NoFiguresOutsideSections(front);
  }

  /** Only the figures section holds figure blocks: the blocks of `figuresHtml`. */
  lemma SectionsFigureBlocks(o: AbntOptions, figs: seq<Figure>)
    ensures FigureBlocksIn(SectionsFor(o, figs)) == FiguresOf(FiguresHtml(figs, o.autoCaptions))
  {
    var mid: seq<Block> := if |figs| > 0 then [FiguresSection(o, figs)] else [];
    var html := FiguresHtml(figs, o.autoCaptions);
    FigureBlocksInAppend([IntroSection(o)] + mid, [ClosingSection(figs)]);
    FigureBlocksInAppend([IntroSection(o)], mid);
    FigureBlocksInSingle(IntroSection(o));
    FigureBlocksInSingle(ClosingSection(figs));
    NoFiguresInParas(IntroSection(o).body);
    NoFiguresInParas(ClosingSection(figs).body);
    if |figs| > 0 {
      FigureBlocksInSingle(FiguresSection(o, figs));
      FiguresOfAppend([Para(FiguresIntro(o.autoCaptions))], html);
      NoFiguresInParas([Para(FiguresIntro(o.autoCaptions))]);
    } else {
      assert html == [];
    }
  }

  lemma {:induction false} NoFiguresOutsideSections(body: seq<Block>)
    requires forall b :: b in body ==> !b.Section?
    ensures FigureBlocksIn(body) == []
    decreases |body|
  {
    if body != [] {
      assert forall b :: b in body[1..] ==> b in body;
      NoFiguresOutsideSections(body[1..]);
    }
  }

  lemma {:induction false} NoFiguresInParas(cs: seq<Content>)
    requires forall c :: c in cs ==> c.Para?
    ensures FiguresOf(cs) == []
    decreases |cs|
  {
    if cs != [] {
      assert cs[0] in cs;
      assert forall c :: c in cs[1..] ==> c in cs;
      NoFiguresInParas(cs[1..]);
    }
  }

  /** The caption numbers of a run of figure blocks. */
  function CaptionNumbers(blocks: seq<FigureBlock>): seq<int>
    requires forall b :: b in blocks ==> b.caption.Some?
  {
    seq(|blocks|, i requires 0 <= i < |blocks| => blocks[i].caption.value.number)
  }

  /** Figures with ids 7, 2, 9, in that order, are captioned Figura 7, 2 and 9, not 1, 2 and 3. */
  lemma CaptionNumberIsFigureId(filename: string, o: AbntOptions)
    requires o.autoCaptions
    ensures var figs := [Figure(7, "a", "a.png"), Figure(2, "b", "b.png"), Figure(9, "c", "c.png")];
      var blocks := FigureBlocksIn(Compose(filename, o, figs).body);
      (forall b :: b in blocks ==> b.caption.Some?) && CaptionNumbers(blocks) == [7, 2, 9]
  {
    var figs := [Figure(7, "a", "a.png"), Figure(2, "b", "b.png"), Figure(9, "c", "c.png")];
    ComposeFigureBlocks(filename, o, figs);
  }

  /**
   * The introduction opens with the paragraph naming the chosen font, size and spacing;
   * the body style uses the font and the size verbatim, the margin rule the option's
   * margins and the mapped line height; the figures section opens with the sentence
   * `autoCaptions` selects.
   */
  lemma ComposeStatesSettings(filename: string, o: AbntOptions, figs: seq<Figure>)
    ensures var doc := Compose(filename, o, figs);
      var secs := Select(doc.body, SectionKind);
      && |secs| >= 2 && secs[0].Section? && |secs[0].body| > 0
      && secs[0].body[0] == Para(SettingsSummary(o.fontFamily, o.fontSize, o.lineSpacing))
      && doc.style.fontFamily == o.fontFamily && doc.style.fontSize == o.fontSize
      && doc.style.marginRule == CssMargin(PageMargins(o.margins))
      && doc.style.lineHeight == LineHeight(o.lineSpacing)
      && (|figs| > 0 ==>
            secs[1].Section? && |secs[1].body| > 0 && secs[1].body[0] == Para(FiguresIntro(o.autoCaptions)))
  {
    ComposeSections(filename, o, figs);
  }

  // ---------------------------------------------------------------------------------
  // The request and the response

  /** The JSON body; a field the client left out is None. `content` is read but never used. */
  datatype RequestBody = RequestBody(
    filename: Option<string>,
    options: Option<AbntOptions>,
    figures: Option<seq<Figure>>,
    content: Option<string>)

  /** What threw: the body did not parse to an object, or a field it needs was missing. */
  datatype Failure = MalformedBody | OptionsMissing | FiguresMissing | FilenameMissing

  datatype Payload =
    | Generated(success: bool, html: HtmlDocument, filename: string)
    | Failed(error: Failure)

  datatype Response = Response(status: nat, payload: Payload)

  /**
   * The handler body for a POST: None stands for a body that is not valid JSON, or is null. The
   * first missing field that is dereferenced (options, then figures, then filename)
   * throws, and the error is answered with status 500.
   */
  function Handle(body: Option<RequestBody>): (r: Response)
    ensures r.status == 200 <==> r.payload.Generated?
    ensures r.status == 500 <==> r.payload.Failed?
    ensures r.payload.Generated? <==>
      body.Some? && body.value.filename.Some? && body.value.options.Some? && body.value.figures.Some?
    ensures r.payload.Generated? ==> r.payload.success
  {
    if body.None? then Response(500, Failed(MalformedBody))
    else if body.value.options.None? then Response(500, Failed(OptionsMissing))
    else if body.value.figures.None? then Response(500, Failed(FiguresMissing))
    else if body.value.filename.None? then Response(500, Failed(FilenameMissing))
    else
      var filename := body.value.filename.value;
      Response(200, Generated(true,
        Compose(filename, body.value.options.value, body.value.figures.value),
        OutputFilename(filename)))
  }

  /** A complete request is answered with the composed document and the output filename. */
  lemma HandleComplete(filename: string, o: AbntOptions, figs: seq<Figure>, content: Option<string>)
    ensures Handle(Some(RequestBody(Some(filename), Some(o), Some(figs), content)))
      == Response(200, Generated(true, Compose(filename, o, figs), OutputFilename(filename)))
  {
  }

  /** The answer depends on the filename, the options and the figures only, never on `content`. */
  lemma HandleIgnoresContent(b: RequestBody, c: Option<string>)
    ensures Handle(Some(b)) == Handle(Some(b.(content := c)))
  {
  }

  /**
   * The worked example: "relatorio.docx" with ABNT margins, 1.5 spacing, captions on and one
   * figure "Diagrama" gives "relatorio_ABNT.pdf", the ABNT margin rule, line height 1.8 and
   * the caption "Figura 1 - Diagrama" with its source line.
   */
  lemma RelatorioExample(o: AbntOptions)
    requires o.margins == "abnt" && o.lineSpacing == "1.5" && o.autoCaptions
    ensures var r := Handle(Some(RequestBody(Some("relatorio.docx"), Some(o), Some([Figure(1, "Diagrama", "img001.png")]), None)));
      && r.status == 200
      && r.payload.filename == "relatorio_ABNT.pdf"
      && r.payload.html.style.marginRule == "margin: 3cm 2cm 2cm 3cm;"
      && r.payload.html.style.lineHeight == "1.8"
      && FigureBlocksIn(r.payload.html.body) == [FigureBlock(1, Some(Caption(1, "Diagrama", Attribution)))]
  {
    var figs := [Figure(1, "Diagrama", "img001.png")];
    RelatorioFilename();
    ComposeFigureBlocks("relatorio.docx", o, figs);
  }

  lemma RelatorioHasNoMatch()
    ensures !HasDoc("relatorio")
  {
    var base := "relatorio";
    forall j: nat | j < |base| ensures !DocAt(base, j) {
      assert base[j] != '.';
    }
  }

  lemma RelatorioFilename()
    ensures OutputFilename("relatorio.docx") == "relatorio_ABNT.pdf"
  {
    RelatorioHasNoMatch();
    assert IsWordExtension(".docx");
    OutputFilenameOfWordFile("relatorio", ".docx");
    assert "relatorio" + ".docx" == "relatorio.docx";
    assert "relatorio" + "_ABNT.pdf" == "relatorio_ABNT.pdf";
  }
}
