/**
 * The small preview card beside the options (src/components/DocumentPreview.tsx): a sketch
 * of the first page with an optional running header, an optional page number, at most one
 * figure card, and a line with the font and spacing settings.
 */
module DocumentPreview {
  import opened Wrappers
  import opened FormatOptions
  import opened FiguresList
  import GeneratePdf

  /** The caption shown when the first figure has an empty name. */
  const PlaceholderCaption: string := "Descrição da imagem"

  /** The caption under the figure card: "Figura {number} - {text}". */
  datatype CardCaption = CardCaption(number: int, text: string)

  /** The figure card; the caption line is optional. */
  datatype FigureCard = FigureCard(caption: Option<CardCaption>)

  datatype PreviewView = PreviewView(
    header: Option<string>,
    pageNumber: Option<string>,
    figureCard: Option<FigureCard>,
    fontFamily: string,
    fontSize: string,
    lineSpacing: string)

  /**
   * The card: the stripped filename in the header iff `headerFooter`; page "1" iff
   * `pageNumbers`; a figure card iff there are figures, captioned iff `autoCaptions`, and
   * the caption is always number 1 and names the first figure, or the placeholder text when
   * that name is empty; the settings are shown as given.
   */
  function Render(fileName: string, o: AbntOptions, figs: seq<Figure>): (v: PreviewView)
    ensures v.header.Some? <==> o.headerFooter
    ensures v.header.Some? ==> v.header.value == GeneratePdf.StripDocExt(fileName)
    ensures v.pageNumber.Some? <==> o.pageNumbers
    ensures v.pageNumber.Some? ==> v.pageNumber.value == "1"
    ensures v.figureCard.Some? <==> |figs| > 0
    ensures v.figureCard.Some? ==> (v.figureCard.value.caption.Some? <==> o.autoCaptions)
    ensures v.figureCard.Some? && v.figureCard.value.caption.Some? ==>
      var c := v.figureCard.value.caption.value;
      && c.number == 1
      && (figs[0].name != "" ==> c.text == figs[0].name)
      && (figs[0].name == "" ==> c.text == PlaceholderCaption)
    ensures v.fontFamily == o.fontFamily && v.fontSize == o.fontSize && v.lineSpacing == o.lineSpacing
  {
    PreviewView(
      if o.headerFooter then Some(GeneratePdf.StripDocExt(fileName)) else None,
      if o.pageNumbers then Some("1") else None,
      if |figs| > 0 then
        Some(FigureCard(if o.autoCaptions then Some(CardCaption(1, if figs[0].name != "" then figs[0].name else PlaceholderCaption)) else None))
      else None,
      o.fontFamily, o.fontSize, o.lineSpacing)
  }

  /** The card's header and page number are those of the server's document for the same inputs. */
  lemma HeaderAndPageNumberAgree(fileName: string, o: AbntOptions, figs: seq<Figure>)
    ensures var v := Render(fileName, o, figs);
      var doc := GeneratePdf.Compose(fileName, o, figs);
      && GeneratePdf.Select(doc.body, GeneratePdf.HeaderKind)
           == (if v.header.Some? then [GeneratePdf.RunningHeader(v.header.value)] else [])
      && GeneratePdf.Select(doc.body, GeneratePdf.PageNumberKind)
           == (if v.pageNumber.Some? then [GeneratePdf.PageNumber(v.pageNumber.value)] else [])
  {
    GeneratePdf.ComposeTitleHeaderPageNumber(fileName, o, figs);
  }

  /**
   * The card's caption has the number and text of the server's first caption exactly when
   * the first figure's id is 1 (its name being non-empty); the card always says "Figura 1",
   * while the server numbers the caption with the figure's id.
   */
  lemma CardCaptionMatchesServerIffFirstIdIsOne(fileName: string, o: AbntOptions, figs: seq<Figure>)
    requires |figs| > 0 && o.autoCaptions && figs[0].name != ""
    ensures var c := Render(fileName, o, figs).figureCard.value.caption.value;
      var blocks := GeneratePdf.FigureBlocksIn(GeneratePdf.Compose(fileName, o, figs).body);
      && |blocks| > 0 && blocks[0].caption.Some?
      && (c == CardCaption(blocks[0].caption.value.number, blocks[0].caption.value.text) <==> figs[0].id == 1)
  {
    GeneratePdf.ComposeFigureBlocks(fileName, o, figs);
  }

  /** With an empty first name the card shows the placeholder, while the server's caption text stays empty. */
  lemma EmptyNameDiffersFromServer(fileName: string, o: AbntOptions, figs: seq<Figure>)
    requires |figs| > 0 && o.autoCaptions && figs[0].name == ""
    ensures var c := Render(fileName, o, figs).figureCard.value.caption.value;
      var blocks := GeneratePdf.FigureBlocksIn(GeneratePdf.Compose(fileName, o, figs).body);
      && |blocks| > 0 && blocks[0].caption.Some?
      && blocks[0].caption.value.text == "" && c.text == PlaceholderCaption
  {
    GeneratePdf.ComposeFigureBlocks(fileName, o, figs);
  }
}
