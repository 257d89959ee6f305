/**
 * The full-page preview dialog (src/components/DocumentPreviewModal.tsx). When the server's
 * HTML is at hand it is shown as it is; otherwise the dialog draws its own imitation of the
 * document, repeating the server's rules for the title, the line height, the sections and
 * the captions. The lemmas at the end show where the imitation agrees with the server's
 * document and where it does not.
 */
module DocumentPreviewModal {
  import opened Wrappers
  import opened FormatOptions
  import opened FiguresList
  import GeneratePdf

  /** The padding of the page that holds injected HTML, whatever the margins option says. */
  const InjectedPadding: string := "3cm 2cm 2cm 3cm"

  /** The dialog's own `lineHeight` expression for the introduction paragraph. */
  function PreviewLineHeight(lineSpacing: string): (r: string)
    ensures r == "1.8" <==> lineSpacing == "1.5"
    ensures r == "2.4" <==> lineSpacing == "2.0"
    ensures r == "1.4" <==> lineSpacing != "1.5" && lineSpacing != "2.0"
  {
    if lineSpacing == "1.5" then "1.8" else if lineSpacing == "2.0" then "2.4" else "1.4"
  }

  /** The dialog's mapping and the server's agree on every `lineSpacing` value, offered or not. */
  lemma PreviewLineHeightAgrees(lineSpacing: string)
    ensures PreviewLineHeight(lineSpacing) == GeneratePdf.LineHeight(lineSpacing)
  {
  }

  /** A numbered `<h2>` of the imitation. */
  datatype Heading = Heading(number: nat, text: string)

  /** What the page area of the dialog shows. */
  datatype Page =
    | Injected(html: string, padding: string, fontFamily: string, fontSize: string)
    | Simulated(
        title: string,
        subtitle: string,
        headings: seq<Heading>,
        summary: GeneratePdf.Paragraph,
        lineHeight: string,
        figures: seq<GeneratePdf.FigureBlock>)

  /** The footer line: font, size, spacing and the margins label. */
  datatype Footer = Footer(fontFamily: string, fontSize: string, lineSpacing: string, marginsLabel: string)

  datatype ModalView = ModalView(page: Page, footer: Footer)

  /** One `[ Imagem {id} ]` block, with "Figura {id} - {name}" and the source line when captions are on. */
  function PreviewFigure(f: Figure, autoCaptions: bool): GeneratePdf.FigureBlock {
    GeneratePdf.FigureBlock(f.id, if autoCaptions then Some(GeneratePdf.Caption(f.id, f.name, GeneratePdf.Attribution)) else None)
  }

  /** The headings of the imitation: the introduction, then the figures heading when there are figures. */
  function PreviewHeadings(figs: seq<Figure>): (hs: seq<Heading>)
    ensures |hs| == if |figs| > 0 then 2 else 1
    ensures forall i :: 0 <= i < |hs| ==> hs[i].number == i + 1
    ensures hs[0].text == GeneratePdf.Introduction
    ensures (exists i :: 0 <= i < |hs| && hs[i].text == GeneratePdf.FiguresHeading) <==> |figs| > 0
  {
    assert |GeneratePdf.Introduction| != |GeneratePdf.FiguresHeading|;
    if |figs| > 0 then
      var hs := [Heading(1, GeneratePdf.Introduction), Heading(2, GeneratePdf.FiguresHeading)];
      assert hs[1].text == GeneratePdf.FiguresHeading;
      hs
    else
      [Heading(1, GeneratePdf.Introduction)]
  }

  /** The imitation of the document drawn when no HTML is given. */
  function SimulatedPage(fileName: string, o: AbntOptions, figs: seq<Figure>): (p: Page)
    ensures p.Simulated?
    ensures |p.figures| == |figs|
    ensures forall i :: 0 <= i < |figs| ==> p.figures[i].placeholderId == figs[i].id
    ensures forall i :: 0 <= i < |figs| ==> (p.figures[i].caption.Some? <==> o.autoCaptions)
  {
    Simulated(
      GeneratePdf.ToUpperCase(GeneratePdf.StripDocExt(fileName)),
      GeneratePdf.Subtitle,
      PreviewHeadings(figs),
      GeneratePdf.SettingsSummary(o.fontFamily, o.fontSize, o.lineSpacing),
      PreviewLineHeight(o.lineSpacing),
      seq(|figs|, i requires 0 <= i < |figs| => PreviewFigure(figs[i], o.autoCaptions)))
  }

  /**
   * The dialog: nothing while closed; the given HTML, unchanged and with the fixed padding,
   * when it is non-empty; the imitation otherwise; and always the footer, whose margins label
   * is "ABNT" exactly for the "abnt" option and "Normal" for anything else.
   */
  function Render(isOpen: bool, fileName: string, o: AbntOptions, figs: seq<Figure>, htmlContent: Option<string>)
    : (v: Option<ModalView>)
    ensures v.None? <==> !isOpen
    ensures v.Some? ==> (v.value.page.Injected? <==> htmlContent.Some? && htmlContent.value != "")
    ensures v.Some? && v.value.page.Injected? ==>
      v.value.page.html == htmlContent.value && v.value.page.padding == InjectedPadding
    ensures v.Some? ==> (v.value.footer.marginsLabel == "ABNT" <==> o.margins == "abnt")
    ensures v.Some? ==> (v.value.footer.marginsLabel == "Normal" <==> o.margins != "abnt")
    ensures v.Some? ==> v.value.footer == Footer(o.fontFamily, o.fontSize, o.lineSpacing, v.value.footer.marginsLabel)
    ensures v.Some? && v.value.page.Injected? ==>
      v.value.page.fontFamily == o.fontFamily && v.value.page.fontSize == o.fontSize
    ensures v.Some? && !v.value.page.Injected? ==> v.value.page == SimulatedPage(fileName, o, figs)
  {
    if !isOpen then None
    else
      var page :=
        if htmlContent.Some? && htmlContent.value != "" then Injected(htmlContent.value, InjectedPadding, o.fontFamily, o.fontSize)
        else SimulatedPage(fileName, o, figs);
      Some(ModalView(page, Footer(o.fontFamily, o.fontSize, o.lineSpacing, if o.margins == "abnt" then "ABNT" else "Normal")))
  }

  /** The imitation's title and subtitle are those of the server's title page. */
  lemma SimulatedTitleAgrees(fileName: string, o: AbntOptions, figs: seq<Figure>)
    ensures var p := SimulatedPage(fileName, o, figs);
      GeneratePdf.Select(GeneratePdf.Compose(fileName, o, figs).body, GeneratePdf.TitleKind)
        == [GeneratePdf.TitlePage(p.title, p.subtitle)]
  {
    GeneratePdf.ComposeTitleHeaderPageNumber(fileName, o, figs);
  }

  /**
   * The imitation's introduction paragraph is the first paragraph of the server's first
   * section, and it is set with the server's line height.
   */
  lemma SimulatedSummaryAgrees(fileName: string, o: AbntOptions, figs: seq<Figure>)
    ensures var p := SimulatedPage(fileName, o, figs);
      var doc := GeneratePdf.Compose(fileName, o, figs);
      var secs := GeneratePdf.Select(doc.body, GeneratePdf.SectionKind);
      && p.lineHeight == doc.style.lineHeight
      && |secs| >= 1 && secs[0].Section? && |secs[0].body| >= 1
      && secs[0].body[0] == GeneratePdf.Para(p.summary)
  {
    GeneratePdf.ComposeSections(fileName, o, figs);
    PreviewLineHeightAgrees(o.lineSpacing);
  }

  /** The imitation's headings are the server's numbered sections without the final remarks. */
  lemma SimulatedHeadingsAgree(fileName: string, o: AbntOptions, figs: seq<Figure>)
    ensures var p := SimulatedPage(fileName, o, figs);
      var secs := GeneratePdf.Select(GeneratePdf.Compose(fileName, o, figs).body, GeneratePdf.SectionKind);
      && |p.headings| == |secs| - 1
      && (forall i :: 0 <= i < |p.headings| ==>
            secs[i].Section? && p.headings[i] == Heading(secs[i].number, secs[i].heading))
  {
    GeneratePdf.ComposeSections(fileName, o, figs);
    HeadingsMatchSections(o, figs);
    assert SimulatedPage(fileName, o, figs).headings == PreviewHeadings(figs);
  }

  lemma HeadingsMatchSections(o: AbntOptions, figs: seq<Figure>)
    ensures var hs := PreviewHeadings(figs);
      var secs := GeneratePdf.SectionsFor(o, figs);
      && |hs| == |secs| - 1
      && (forall i :: 0 <= i < |hs| ==> secs[i].Section? && hs[i] == Heading(secs[i].number, secs[i].heading))
  {
    var secs := GeneratePdf.SectionsFor(o, figs);
    assert secs[0] == GeneratePdf.IntroSection(o);
    if |figs| > 0 {
      assert secs[1] == GeneratePdf.FiguresSection(o, figs);
    }
  }

  /** The imitation draws the same figure blocks as the server, in the same order, captions included. */
  lemma SimulatedFiguresAgree(fileName: string, o: AbntOptions, figs: seq<Figure>)
    ensures SimulatedPage(fileName, o, figs).figures
      == GeneratePdf.FigureBlocksIn(GeneratePdf.Compose(fileName, o, figs).body)
  {
    var p := SimulatedPage(fileName, o, figs);
    GeneratePdf.ComposeFigureBlocks(fileName, o, figs);
    var blocks := GeneratePdf.FigureBlocksIn(GeneratePdf.Compose(fileName, o, figs).body);
    assert forall i :: 0 <= i < |figs| ==> p.figures[i] == blocks[i];
  }

  /**
   * The injected page keeps the ABNT padding, so it matches the document's own margin rule
   * exactly when the margins option is "abnt".
   */
  lemma InjectedPaddingIgnoresMargins(fileName: string, o: AbntOptions, figs: seq<Figure>, html: string)
    requires html != ""
    ensures var v := Render(true, fileName, o, figs, Some(html));
      v.Some? && v.value.page.Injected? &&
      ("margin: " + v.value.page.padding + ";" == GeneratePdf.MarginRule(o.margins) <==> o.margins == "abnt")
  {
    assert "margin: " + InjectedPadding + ";" == "margin: 3cm 2cm 2cm 3cm;";
  }
}
