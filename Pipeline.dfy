/** The deterministic parts of the retrieval pipeline (main-fixed.py): projecting one
    inventory row to its status-annotated document text, and assembling the prompt from the
    retrieved documents and the user's question. */
module Pipeline {
  import opened Wrappers
  import opened Text
  import opened Dates
  import opened Inventory

  // ---------------------------------------------------------------------------------------
  // Classification labels
  // ---------------------------------------------------------------------------------------

  /** The fixed "current date" the expiry classification counts from. */
  const ReferenceDate: Date := Date(2025, 9, 22)

  const OutOfStock := "OUT OF STOCK"
  const CriticalLowStock := "CRITICAL LOW STOCK"
  const LowStock := "LOW STOCK"
  const AdequateStock := "ADEQUATE STOCK"

  const Expired := "EXPIRED"
  const ExpiresSoon := "EXPIRES SOON - URGENT"
  const ExpiresThisMonth := "EXPIRES THIS MONTH"
  const Fresh := "FRESH"
  const UnknownExpiry := "UNKNOWN EXPIRY"

  const HighDemand := "HIGH DEMAND"
  const MediumDemand := "MEDIUM DEMAND"
  const LowDemand := "LOW DEMAND"
  const NoRecentSales := "NO RECENT SALES"

  const CloseToFactory := "CLOSE TO FACTORY"
  const ModerateDistance := "MODERATE DISTANCE"
  const FarFromFactory := "FAR FROM FACTORY"

  const HighPriority := "HIGH PRIORITY"
  const NormalPriority := "NORMAL PRIORITY"

  /** Stock status: nothing left, under 10, under 50, or enough. */
  function StockStatus(stock: int): (status: string)
    ensures status == OutOfStock <==> stock == 0
    ensures status == CriticalLowStock <==> stock != 0 && stock < 10
    ensures status == LowStock <==> 10 <= stock < 50
    ensures status == AdequateStock <==> stock >= 50
  {
    if stock == 0 then OutOfStock
    else if stock < 10 then CriticalLowStock
    else if stock < 50 then LowStock
    else AdequateStock
  }

  /** Expiry status from the number of days left: past, within a week, within 30 days, or
      later. */
  function ExpiryStatusForDays(days: int): (status: string)
    ensures status == Expired <==> days < 0
    ensures status == ExpiresSoon <==> 0 <= days <= 7
    ensures status == ExpiresThisMonth <==> 8 <= days <= 30
    ensures status == Fresh <==> days > 30
    ensures status != UnknownExpiry
  {
    if days < 0 then Expired
    else if days <= 7 then ExpiresSoon
    else if days <= 30 then ExpiresThisMonth
    else Fresh
  }

  /** Days from the reference date to the expiry date, or `None` when the text is not a
      `YYYY-MM-DD` date. */
  function DaysToExpiry(expiryDate: string): (days: Option<int>)
    ensures days.Some? <==> ParseDate(expiryDate).Some?
  {
    match ParseDate(expiryDate)
    case Some(d) => Some(DaysBetween(ReferenceDate, d))
    case None => None
  }

  /** Expiry status of the text in the ExpiryDate column; a text that does not parse only
      degrades this one label. */
  function ExpiryStatus(expiryDate: string): (status: string)
    ensures status == UnknownExpiry <==> ParseDate(expiryDate).None?
  {
    match DaysToExpiry(expiryDate)
    case Some(days) => ExpiryStatusForDays(days)
    case None => UnknownExpiry
  }

  /** Demand status from last month's sales. */
  function DemandStatus(salesLastMonth: int): (status: string)
    ensures status == HighDemand <==> salesLastMonth > 100
    ensures status == MediumDemand <==> 50 < salesLastMonth <= 100
    ensures status == LowDemand <==> 0 < salesLastMonth <= 50
    ensures status == NoRecentSales <==> salesLastMonth <= 0
  {
    if salesLastMonth > 100 then HighDemand
    else if salesLastMonth > 50 then MediumDemand
    else if salesLastMonth > 0 then LowDemand
    else NoRecentSales
  }

  /** Distance status from the distance to the factory in km. */
  function DistanceStatus(km: int): (status: string)
    ensures status == CloseToFactory <==> km <= 5
    ensures status == ModerateDistance <==> 5 < km <= 15
    ensures status == FarFromFactory <==> km > 15
  {
    if km <= 5 then CloseToFactory
    else if km <= 15 then ModerateDistance
    else FarFromFactory
  }

  /** The priority line: high for a critically low or empty stock, or an urgent expiry. */
  function PriorityOf(stockStatus: string, expiryStatus: string): (p: string)
    ensures p == HighPriority || p == NormalPriority
    ensures p == HighPriority
            <==> stockStatus == CriticalLowStock || stockStatus == OutOfStock || expiryStatus == ExpiresSoon
  {
    if stockStatus in [CriticalLowStock, OutOfStock] || expiryStatus == ExpiresSoon
    then HighPriority
    else NormalPriority
  }

  lemma StockBoundaries()
    ensures StockStatus(0) == OutOfStock && StockStatus(9) == CriticalLowStock
    ensures StockStatus(10) == LowStock && StockStatus(49) == LowStock
    ensures StockStatus(50) == AdequateStock
  {
  }

  lemma ExpiryBoundaries()
    ensures ExpiryStatusForDays(-1) == Expired
    ensures ExpiryStatusForDays(0) == ExpiresSoon && ExpiryStatusForDays(7) == ExpiresSoon
    ensures ExpiryStatusForDays(8) == ExpiresThisMonth && ExpiryStatusForDays(30) == ExpiresThisMonth
    ensures ExpiryStatusForDays(31) == Fresh
  {
  }

  /** A date written in the dataset's format is classified by its day distance from the
      reference date. */
  lemma ExpiryOfFormattedDate(d: Date)
    requires IsValid(d)
    ensures ExpiryStatus(FormatDate(d)) == ExpiryStatusForDays(DaysBetween(ReferenceDate, d))
    ensures ExpiryStatus(FormatDate(d)) != UnknownExpiry
  {
    ParseFormat(d);
  }

  /** The record's priority is high exactly when its stock is below 10 (empty included) or its
      expiry date parses and lies 0 to 7 days after the reference date. */
  lemma PriorityRule(r: Record)
    ensures PriorityOf(StockStatus(r.CurrentStock), ExpiryStatus(r.ExpiryDate)) == HighPriority
            <==> r.CurrentStock < 10
                 || (DaysToExpiry(r.ExpiryDate).Some? && 0 <= DaysToExpiry(r.ExpiryDate).value <= 7)
  {
  }

  // ---------------------------------------------------------------------------------------
  // Document text
  // ---------------------------------------------------------------------------------------

  /** The four labels computed before the document is assembled. */
  datatype Labels = Labels(stock: string, expiry: string, demand: string, distance: string)

  function LabelsOf(r: Record): (l: Labels)
    ensures l.stock == StockStatus(r.CurrentStock) && l.expiry == ExpiryStatus(r.ExpiryDate)
    ensures l.demand == DemandStatus(r.SalesLastMonth) && l.distance == DistanceStatus(r.FactoryDistanceKM)
  {
    Labels(StockStatus(r.CurrentStock), ExpiryStatus(r.ExpiryDate),
           DemandStatus(r.SalesLastMonth), DistanceStatus(r.FactoryDistanceKM))
  }

  /** The lines of the document template between its opening and closing newline; the
      priority is decided inside the template. */
  function DocumentLines(r: Record, l: Labels): (lines: seq<string>)
    ensures |lines| == 12
  {
    [ "Product Information:",
      "Product ID: " + IntToString(r.ProductID),
      "Product Name: " + r.ProductName,
      "Location: " + r.Location,
      "Current Stock: " + IntToString(r.CurrentStock) + " units (" + l.stock + ")",
      "Last Sold Date: " + r.LastSoldDate,
      "Expiry Date: " + r.ExpiryDate + " (" + l.expiry + ")",
      "Sales Last Month: " + IntToString(r.SalesLastMonth) + " units (" + l.demand + ")",
      "Total Sales: " + IntToString(r.TotalSales) + " units",
      "Factory Distance: " + IntToString(r.FactoryDistanceKM) + " km (" + l.distance + ")",
      "Status Summary: " + l.stock + ", " + l.expiry + ", " + l.demand,
      "Priority: " + PriorityOf(l.stock, l.expiry) ]
  }

  /** Stripping the template's framing newlines leaves its lines joined by newlines, which
      run from "Product Information:" to the priority label. */
  lemma StripTemplate(r: Record, l: Labels)
    ensures var body := Join("\n", DocumentLines(r, l));
      Strip("\n" + body + "\n") == body && IsPrefix("Product Information:", body)
  {
    var lines := DocumentLines(r, l);
    var body := Join("\n", lines);
    assert body == lines[0] + "\n" + Join("\n", lines[1..]);
    assert body[..20] == "Product Information:";
    JoinSnoc("\n", lines[..11], lines[11]);
    assert lines[..11] + [lines[11]] == lines;
    var last := lines[11];
    assert last[|last| - 1] == 'Y';
    assert body[|body| - 1] == 'Y';
    StripFramed(body);
  }

  /** The template filled with a record and its labels, opened and closed by a newline, then
      stripped: stripping removes exactly the two framing newlines, so the text runs from
      "Product Information:" to the priority label. */
  function RenderDocument(r: Record, l: Labels): (text: string)
    ensures text == Join("\n", DocumentLines(r, l))
    ensures IsPrefix("Product Information:", text)
  {
    StripTemplate(r, l);
    Strip("\n" + Join("\n", DocumentLines(r, l)) + "\n")
  }

  /** `create_document_text`: the template filled with the record's own labels, whatever the
      field values (an unparseable expiry date included). */
  function CreateDocumentText(r: Record): (text: string)
    ensures text == Join("\n", DocumentLines(r, LabelsOf(r)))
    ensures IsPrefix("Product Information:", text)
    ensures Contains(text, "Priority: " + PriorityOf(StockStatus(r.CurrentStock), ExpiryStatus(r.ExpiryDate)))
  {
    var lines := DocumentLines(r, LabelsOf(r));
    JoinContainsPart("\n", lines, 11);
    RenderDocument(r, LabelsOf(r))
  }

  /** Whatever occurs on a line of the template occurs in the rendered text. */
  lemma MentionedOnLine(r: Record, l: Labels, i: nat, t: string)
    requires i < 12 && Contains(DocumentLines(r, l)[i], t)
    ensures Contains(RenderDocument(r, l), t)
  {
    JoinContainsPart("\n", DocumentLines(r, l), i);
    ContainsTrans(RenderDocument(r, l), DocumentLines(r, l)[i], t);
  }

  /** The identifying fields sit on lines 1 to 3 of the template. */
  lemma LinesMentionIdentity(r: Record, l: Labels)
    ensures var lines := DocumentLines(r, l);
      && Contains(lines[1], IntToString(r.ProductID))
      && Contains(lines[2], r.ProductName)
      && Contains(lines[3], r.Location)
  {
    ContainsEnd("Product ID: ", IntToString(r.ProductID));
    ContainsEnd("Product Name: ", r.ProductName);
    ContainsEnd("Location: ", r.Location);
  }

  /** The stock figure and the two dates sit on lines 4 to 6 of the template. */
  lemma LinesMentionStockAndDates(r: Record, l: Labels)
    ensures var lines := DocumentLines(r, l);
      && Contains(lines[4], IntToString(r.CurrentStock))
      && Contains(lines[5], r.LastSoldDate)
      && Contains(lines[6], r.ExpiryDate)
  {
    ContainsSecond("Current Stock: ", IntToString(r.CurrentStock), " units (", l.stock, ")");
    ContainsEnd("Last Sold Date: ", r.LastSoldDate);
    ContainsSecond("Expiry Date: ", r.ExpiryDate, " (", l.expiry, ")");
  }

  /** The sales figures and the factory distance sit on lines 7 to 9 of the template. */
  lemma LinesMentionFigures(r: Record, l: Labels)
    ensures var lines := DocumentLines(r, l);
      && Contains(lines[7], IntToString(r.SalesLastMonth))
      && Contains(lines[8], IntToString(r.TotalSales))
      && Contains(lines[9], IntToString(r.FactoryDistanceKM))
  {
    ContainsSecond("Sales Last Month: ", IntToString(r.SalesLastMonth), " units (", l.demand, ")");
    ContainsMiddle("Total Sales: ", IntToString(r.TotalSales), " units");
    ContainsSecond("Factory Distance: ", IntToString(r.FactoryDistanceKM), " km (", l.distance, ")");
  }

  /** Each label sits on the line of the value it classifies, the priority on the last line. */
  lemma LinesMentionLabels(r: Record, l: Labels)
    ensures var lines := DocumentLines(r, l);
      && Contains(lines[4], l.stock)
      && Contains(lines[6], l.expiry)
      && Contains(lines[7], l.demand)
      && Contains(lines[9], l.distance)
      && Contains(lines[11], PriorityOf(l.stock, l.expiry))
  {
    ContainsMiddle("Current Stock: " + IntToString(r.CurrentStock) + " units (", l.stock, ")");
    ContainsMiddle("Expiry Date: " + r.ExpiryDate + " (", l.expiry, ")");
    ContainsMiddle("Sales Last Month: " + IntToString(r.SalesLastMonth) + " units (", l.demand, ")");
    ContainsMiddle("Factory Distance: " + IntToString(r.FactoryDistanceKM) + " km (", l.distance, ")");
    ContainsEnd("Priority: ", PriorityOf(l.stock, l.expiry));
  }

  /** The rendered text carries every field value verbatim. */
  lemma RenderMentionsFields(r: Record, l: Labels)
    ensures var text := RenderDocument(r, l);
      && Contains(text, IntToString(r.ProductID))
      && Contains(text, r.ProductName)
      && Contains(text, r.Location)
      && Contains(text, IntToString(r.CurrentStock))
      && Contains(text, r.LastSoldDate)
      && Contains(text, r.ExpiryDate)
      && Contains(text, IntToString(r.SalesLastMonth))
      && Contains(text, IntToString(r.TotalSales))
      && Contains(text, IntToString(r.FactoryDistanceKM))
  {
    LinesMentionIdentity(r, l);
    LinesMentionStockAndDates(r, l);
    LinesMentionFigures(r, l);
    MentionedOnLine(r, l, 1, IntToString(r.ProductID));
    MentionedOnLine(r, l, 2, r.ProductName);
    MentionedOnLine(r, l, 3, r.Location);
    MentionedOnLine(r, l, 4, IntToString(r.CurrentStock));
    MentionedOnLine(r, l, 5, r.LastSoldDate);
    MentionedOnLine(r, l, 6, r.ExpiryDate);
    MentionedOnLine(r, l, 7, IntToString(r.SalesLastMonth));
    MentionedOnLine(r, l, 8, IntToString(r.TotalSales));
    MentionedOnLine(r, l, 9, IntToString(r.FactoryDistanceKM));
  }

  /** The rendered text carries every label verbatim, the priority decided from them
      included. */
  lemma RenderMentionsLabels(r: Record, l: Labels)
    ensures var text := RenderDocument(r, l);
      && Contains(text, l.stock)
      && Contains(text, l.expiry)
      && Contains(text, l.demand)
      && Contains(text, l.distance)
      && Contains(text, PriorityOf(l.stock, l.expiry))
  {
    LinesMentionLabels(r, l);
    MentionedOnLine(r, l, 4, l.stock);
    MentionedOnLine(r, l, 6, l.expiry);
    MentionedOnLine(r, l, 7, l.demand);
    MentionedOnLine(r, l, 9, l.distance);
    MentionedOnLine(r, l, 11, PriorityOf(l.stock, l.expiry));
  }

  /** The document of a record carries every field value and every derived label verbatim,
      the priority included. */
  lemma DocumentMentionsEverything(r: Record)
    ensures var text := CreateDocumentText(r);
      && Contains(text, IntToString(r.ProductID))
      && Contains(text, r.ProductName)
      && Contains(text, r.Location)
      && Contains(text, IntToString(r.CurrentStock))
      && Contains(text, r.LastSoldDate)
      && Contains(text, r.ExpiryDate)
      && Contains(text, IntToString(r.SalesLastMonth))
      && Contains(text, IntToString(r.TotalSales))
      && Contains(text, IntToString(r.FactoryDistanceKM))
      && Contains(text, StockStatus(r.CurrentStock))
      && Contains(text, ExpiryStatus(r.ExpiryDate))
      && Contains(text, DemandStatus(r.SalesLastMonth))
      && Contains(text, DistanceStatus(r.FactoryDistanceKM))
      && Contains(text, PriorityOf(StockStatus(r.CurrentStock), ExpiryStatus(r.ExpiryDate)))
  {
    RenderMentionsFields(r, LabelsOf(r));
    RenderMentionsLabels(r, LabelsOf(r));
  }

  // ---------------------------------------------------------------------------------------
  // Prompt assembly
  // ---------------------------------------------------------------------------------------

  /** A retrieved document as it may reach the prompt builder: an object with a `text`
      attribute, a dictionary, a plain string, or anything else (shown by its `str`). */
  datatype Doc =
    | TextObject(text: string)
    | Dict(fields: map<string, string>)
    | Str(s: string)
    | Other(repr: string)

  /** `doc.get('text', doc.get('chunk', doc.get('data', '')))`: the first key present wins,
      even when its value is empty. */
  function DictText(fields: map<string, string>): (text: string)
    ensures "text" in fields ==> text == fields["text"]
    ensures "text" !in fields && "chunk" in fields ==> text == fields["chunk"]
    ensures "text" !in fields && "chunk" !in fields && "data" in fields ==> text == fields["data"]
    ensures "text" !in fields && "chunk" !in fields && "data" !in fields ==> text == ""
  {
    if "text" in fields then fields["text"]
    else if "chunk" in fields then fields["chunk"]
    else if "data" in fields then fields["data"]
    else ""
  }

  /** What one document contributes to the context; only a dictionary with an empty text is
      skipped, a plain string is kept even when empty. */
  function PartOf(doc: Doc): (part: Option<string>)
    ensures part.None? <==> doc.Dict? && DictText(doc.fields) == ""
    ensures doc.Str? ==> part == Some(doc.s)
  {
    match doc
    case TextObject(text) => Some(text)
    case Dict(fields) => if DictText(fields) != "" then Some(DictText(fields)) else None
    case Str(s) => Some(s)
    case Other(repr) => Some(repr)
  }

  /** The context parts collected from `docs`, in order: the part of every kept document,
      and nothing else. */
  function CollectedParts(docs: seq<Doc>): (parts: seq<string>)
    ensures |parts| <= |docs|
    ensures forall i :: 0 <= i < |docs| && PartOf(docs[i]).Some? ==> PartOf(docs[i]).value in parts
    ensures forall p :: p in parts ==> exists i :: 0 <= i < |docs| && PartOf(docs[i]) == Some(p)
  {
    if docs == [] then []
    else
      var last := docs[|docs| - 1];
      CollectedParts(docs[..|docs| - 1]) + (if PartOf(last).Some? then [PartOf(last).value] else [])
  }

  const Placeholder := "No inventory data found."
  const Delimiter := "\n\n---\n\n"

  /** The grounding context: the parts joined by the delimiter, or the placeholder when no
      part was collected. */
  function Context(parts: seq<string>): (context: string)
    ensures parts == [] ==> context == Placeholder
    ensures parts != [] ==> context == Join(Delimiter, parts)
    ensures forall i :: 0 <= i < |parts| ==> Contains(context, parts[i])
  {
    JoinContainsParts(Delimiter, parts);
    if |parts| > 0 then Join(Delimiter, parts) else Placeholder
  }

  const PromptIntro := "You are a warehouse management AI assistant. Use the following real-time inventory data to answer the query.\n\n"
  const ContextLabel := "CURRENT INVENTORY DATA:\n"
  const QueryLabel := "USER QUERY: "
  const PromptInstructions := "\n\nProvide a helpful response that:\n1. Directly answers the question with specific details (product IDs, names, stock levels)\n2. Highlights urgent issues (low stock, expiring items)\n3. Provides actionable recommendations\n4. Uses exact numbers and dates from the data\n\nRESPONSE:"

  /** The prompt template around a context and a query: it holds the context right after
      "CURRENT INVENTORY DATA:" and the query right after "USER QUERY: ". */
  function PromptText(context: string, query: string): (prompt: string)
    ensures IsPrefix(PromptIntro, prompt)
    ensures Contains(prompt, ContextLabel + context)
    ensures Contains(prompt, QueryLabel + query)
  {
    TemplateLayout(PromptIntro, ContextLabel, context, QueryLabel, query, PromptInstructions);
    PromptIntro + ContextLabel + context + "\n\n" + QueryLabel + query + PromptInstructions
  }

  /** `build_warehouse_prompt`: collects a part per document, joins them and fills the
      template. */
  method BuildWarehousePrompt(docs: seq<Doc>, query: string) returns (prompt: string)
    ensures prompt == PromptText(Context(CollectedParts(docs)), query)
    ensures forall i :: 0 <= i < |docs| && PartOf(docs[i]).Some? ==> Contains(prompt, PartOf(docs[i]).value)
  {
    var parts: seq<string> := [];
    for i := 0 to |docs|
      invariant parts == CollectedParts(docs[..i])
    {
      assert docs[..i + 1][..i] == docs[..i];
      match docs[i]
      case TextObject(text) =>
        parts := parts + [text];
      case Dict(fields) =>
        var text := DictText(fields);
        if text != "" {
          parts := parts + [text];
        }
      case Str(s) =>
        parts := parts + [s];
      case Other(repr) =>
        parts := parts + [repr];
    }
    assert docs[..|docs|] == docs;
    var context := if |parts| > 0 then Join(Delimiter, parts) else Placeholder;
    prompt := PromptIntro + ContextLabel + context + "\n\n" + QueryLabel + query + PromptInstructions;
    forall i | 0 <= i < |docs| && PartOf(docs[i]).Some?
      ensures Contains(prompt, PartOf(docs[i]).value)
    {
      PromptHoldsKeptDoc(docs, query, i);
    }
  }

  /** Collecting from two runs of documents one after the other collects the parts of the
      first run, then those of the second. */
  lemma {:induction false} CollectedAppend(a: seq<Doc>, b: seq<Doc>)
    ensures CollectedParts(a + b) == CollectedParts(a) + CollectedParts(b)
    decreases |b|
  {
    if b == [] {
      assert a + b == a;
    } else {
      var init, last := b[..|b| - 1], b[|b| - 1];
      var kept := if PartOf(last).Some? then [PartOf(last).value] else [];
      CollectedAppend(a, init);
      assert (a + b)[..|a + b| - 1] == a + init;
      assert (a + b)[|a + b| - 1] == last;
      assert CollectedParts(a + b) == CollectedParts(a + init) + kept;
      assert CollectedParts(b) == CollectedParts(init) + kept;
    }
  }

  /** The text of every kept document reaches the prompt, inside its context. */
  lemma PromptHoldsKeptDoc(docs: seq<Doc>, query: string, i: nat)
    requires i < |docs| && PartOf(docs[i]).Some?
    ensures Contains(PromptText(Context(CollectedParts(docs)), query), PartOf(docs[i]).value)
  {
    var parts := CollectedParts(docs);
    var part := PartOf(docs[i]).value;
    assert part in parts;
    PromptHoldsContextPart(parts, query, part);
  }

  /** A collected part reaches the prompt built around the context of the parts. */
  lemma PromptHoldsContextPart(parts: seq<string>, query: string, part: string)
    requires part in parts
    ensures Contains(PromptText(Context(parts), query), part)
  {
    var context := Context(parts);
    var j :| 0 <= j < |parts| && parts[j] == part;
    assert Contains(context, part);
    ContainsEnd(ContextLabel, context);
    ContainsTrans(ContextLabel + context, context, part);
    assert Contains(PromptText(context, query), ContextLabel + context);
    ContainsTrans(PromptText(context, query), ContextLabel + context, part);
  }

  /** No part is collected exactly when every document is a dictionary with an empty text. */
  lemma {:induction false} NothingCollected(docs: seq<Doc>)
    ensures CollectedParts(docs) == []
            <==> forall i :: 0 <= i < |docs| ==> docs[i].Dict? && DictText(docs[i].fields) == ""
  {
    if docs != [] {
      var init := docs[..|docs| - 1];
      NothingCollected(init);
      assert forall i :: 0 <= i < |init| ==> init[i] == docs[i];
    }
  }

  /** An occurrence of a non-empty text starts with an occurrence of its first character. */
  lemma ContainsFirstChar(s: string, t: string)
    requires t != [] && Contains(s, t)
    ensures t[0] in s
  {
    var k :| 0 <= k <= |s| && IsPrefix(t, s[k..]);
    assert s[k] == s[k..][..|t|][0];
  }

  lemma PlaceholderHasNoNewline()
    ensures '\n' !in Placeholder
  {
    assert forall i :: 0 <= i < |Placeholder| ==> Placeholder[i] != '\n';
  }

  /** The context is the placeholder exactly when nothing was collected, or the only part
      collected is itself the placeholder text. */
  lemma ContextIsPlaceholder(parts: seq<string>)
    ensures Context(parts) == Placeholder <==> parts == [] || parts == [Placeholder]
  {
    if |parts| >= 2 {
      JoinOfSeveralContainsSeparator(Delimiter, parts);
      ContainsFirstChar(Join(Delimiter, parts), Delimiter);
      PlaceholderHasNoNewline();
      assert Join(Delimiter, parts) != Placeholder;
    }
  }

  /** One plain empty string as the only retrieved document gives an empty context, not the
      placeholder. */
  lemma EmptyStringDocGivesEmptyContext()
    ensures Context(CollectedParts([Str("")])) == ""
  {
    assert [Str("")][..0] == [];
  }

  /** Any text laid out as the prompt template holds its labelled context and its labelled
      query. */
  lemma TemplateLayout(intro: string, cl: string, context: string, ql: string, query: string,
                       tail: string)
    ensures Contains(intro + cl + context + "\n\n" + ql + query + tail, cl + context)
    ensures Contains(intro + cl + context + "\n\n" + ql + query + tail, ql + query)
  {
    var p := intro + cl + context + "\n\n" + ql + query + tail;
    var k1 := |intro|;
    assert p[k1..k1 + |cl + context|] == cl + context;
    ContainsAt(p, cl + context, k1);
    var k2 := |intro + cl + context + "\n\n"|;
    assert p[k2..k2 + |ql + query|] == ql + query;
    ContainsAt(p, ql + query, k2);
  }
}
