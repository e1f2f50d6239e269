/** Saving a designed quote card, `DesignQuoteViewModel`
    (QuoteValut/ViewModels/DesignquoteViewModel.swift): the `designed_quotes` row built from the
    quote and the chosen design, and the `isSaving` / `saveSuccess` / `errorMessage` flags around
    the insert, whose outcome the caller passes in. */
module DesignQuote {
  import opened Outcomes
  import opened Quotes
  import opened BackgroundStyles

  /** SwiftUI's `TextAlignment`; `Unknown` stands for any case a later SDK adds, which the source
      handles with `@unknown default`. */
  datatype TextAlignment = Leading | Center | Trailing | Unknown

  /** The `DesignedQuote` record inserted into `designed_quotes`. */
  datatype DesignedQuote = DesignedQuote(
    id: Option<Uuid>,
    userId: Uuid,
    quoteText: string,
    author: string,
    category: string,
    backgroundStyle: string,
    fontSize: int,
    alignment: string,
    format: string)

  /** `alignmentString(from:)`. */
  function AlignmentString(a: TextAlignment): (r: string)
    ensures r == "leading" <==> a == Leading
    ensures r == "trailing" <==> a == Trailing
    ensures r == "center" <==> a == Center || a == Unknown
  {
    match a
    case Leading => "leading"
    case Center => "center"
    case Trailing => "trailing"
    case Unknown => "center"
  }

  /** `isSquare ? "square" : "story"`. */
  function FormatString(isSquare: bool): (r: string)
    ensures r == "square" <==> isSquare
    ensures r == "story" <==> !isSquare
  {
    if isSquare then "square" else "story"
  }

  /** The payload `saveDesignedQuote` inserts. `fontSize` is the already truncated `Int(fontSize)`. */
  function Payload(userId: Uuid, quote: Quote, style: BackgroundStyle, fontSize: int,
                   alignment: TextAlignment, isSquare: bool): (p: DesignedQuote)
    // a new row: the database assigns the id
    ensures p.id == None && p.userId == userId
    // the quote's text, author and category are copied unchanged
    ensures p.quoteText == quote.text && p.author == quote.author && p.category == quote.category
    // the stored style names the chosen style and reads back as it
    ensures p.backgroundStyle == style.Id() && FromRawValue(p.backgroundStyle) == Some(style)
    ensures p.fontSize == fontSize
    ensures p.alignment == "leading" <==> alignment == Leading
    ensures p.alignment == "trailing" <==> alignment == Trailing
    ensures p.alignment == "center" <==> alignment == Center || alignment == Unknown
    ensures p.format == "square" <==> isSquare
    ensures p.format == "story" <==> !isSquare
  {
    DesignedQuote(None, userId, quote.text, quote.author, quote.category, style.RawValue(),
                  fontSize, AlignmentString(alignment), FormatString(isSquare))
  }

  class DesignQuoteViewModel {
    var isSaving: bool
    var saveSuccess: bool
    var errorMessage: Option<string>

    constructor ()
      ensures !isSaving && !saveSuccess && errorMessage == None
    {
      isSaving := false;
      saveSuccess := false;
      errorMessage := None;
    }

    /** `saveDesignedQuote(...)`; `insert` is the outcome of the insert; returns the payload sent. */
    method SaveDesignedQuote(userId: Uuid, quote: Quote, style: BackgroundStyle, fontSize: int,
                             alignment: TextAlignment, isSquare: bool, insert: Outcome<()>)
      returns (payload: DesignedQuote)
      modifies this
      ensures payload == Payload(userId, quote, style, fontSize, alignment, isSquare)
      ensures !isSaving
      ensures saveSuccess <==> insert.Ok?
      ensures errorMessage == if insert.Ok? then None else Some(insert.msg)
    {
      isSaving := true;
      errorMessage := None;
      saveSuccess := false;
      payload := Payload(userId, quote, style, fontSize, alignment, isSquare);
      match insert {
        case Ok(_) => saveSuccess := true;
        case Err(m) => errorMessage := Some(m);
      }
      isSaving := false;
    }
  }
}
