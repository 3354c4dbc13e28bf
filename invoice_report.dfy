/**
 The invoice report pipeline on values: what `generateReport` computes from a
 fixed snapshot of the three stores and a renderer.

   generateReport(id) = invoices.findById(id)
                          .flatMap(populateClient)
                          .flatMap(populateItems)
                          .map(generatePDF)
                          .onErrorResume(e -> empty)

 The functions here are the specification the object-level service in
 `InvoiceServiceImpl` is proved against; the lemmas state what the pipeline
 promises about each outcome.
 */
module InvoiceReport {
  import opened Wrappers
  import opened Reactor
  import opened Model

  /** The `NullPointerException`s the pipeline can raise on a loaded invoice. */
  datatype Fault =
    | NullClientReference  // `invoice.getClient()` is null
    | NullItemList         // `invoice.getItems()` is null
    | NullDishReference    // some `item.getDish()` is null

  /** A fixed snapshot of the client, dish and invoice stores. */
  datatype Stores = Stores(
    invoices: map<string, InvoiceDoc>,
    clients: map<string, Client>,
    dishes: map<string, Dish>)

  /** The classpath resource the renderer compiles. */
  const Template: string := "/facturas.jrxml"

  /** The report parameter that carries the client's name. */
  const TxtClient: string := "txt_client"

  /** What the report library is given: a template, named parameters (values may be null) and a row source. */
  datatype RenderRequest = RenderRequest(
    template: string,
    parameters: map<string, Option<string>>,
    rows: Option<seq<Line>>)

  /** Compile, fill and export to PDF: succeeds with the document's bytes or fails. */
  type Renderer = RenderRequest -> Option<seq<byte>>

  /** `findById` of a store: the record kept under `id`, or an empty completion. */
  function FindById<T>(store: map<string, T>, id: string): (r: Mono<T, Fault>)
    ensures r.Just? <==> id in store
    ensures r.Just? ==> r.value == store[id]
    ensures !r.Error?
  {
    if id in store then Just(store[id]) else Empty
  }

  /** `populateClient`: replace the id-only client by the stored client record. */
  function ResolveClient(clients: map<string, Client>, doc: InvoiceDoc): (r: Mono<InvoiceDoc, Fault>)
    ensures r.Error? <==> doc.client.None?
    ensures r.Error? ==> r.error == NullClientReference
    ensures r.Just? <==> doc.client.Some? && doc.client.value.id in clients
    ensures r.Just? ==> r.value.client == Some(clients[doc.client.value.id])
    ensures r.Just? ==> r.value.id == doc.id && r.value.items == doc.items
  {
    match doc.client
    case None => Error(NullClientReference)
    case Some(ref) => FindById(clients, ref.id).Map((c: Client) => doc.(client := Some(c)))
  }

  /** The dish a line item ends up with: the stored record if its id resolves, else the dish it had. */
  function ResolveDish(dishes: map<string, Dish>, d: Dish): Dish {
    if d.id in dishes then dishes[d.id] else d
  }

  predicate DishesPresent(lines: seq<Line>) {
    forall k :: 0 <= k < |lines| ==> lines[k].dish.Some?
  }

  /** Every line's dish lookup, each one independent of the others. */
  function ResolveLines(dishes: map<string, Dish>, lines: seq<Line>): (r: seq<Line>)
    requires DishesPresent(lines)
    ensures |r| == |lines|
    ensures forall k :: 0 <= k < |lines| ==> r[k].quantity == lines[k].quantity && r[k].dish.Some?
    ensures forall k :: 0 <= k < |lines| && lines[k].dish.value.id in dishes ==>
              r[k].dish.value == dishes[lines[k].dish.value.id]
    ensures forall k :: 0 <= k < |lines| && lines[k].dish.value.id !in dishes ==> r[k] == lines[k]
  {
    if lines == [] then []
    else [lines[0].(dish := Some(ResolveDish(dishes, lines[0].dish.value)))] + ResolveLines(dishes, lines[1..])
  }

  /**
   `populateItems`: look up every line's dish and set the ones found. A dish
   that is not found leaves its line as it was; the step still emits the invoice.
   */
  function ResolveItems(dishes: map<string, Dish>, doc: InvoiceDoc): (r: Mono<InvoiceDoc, Fault>)
    ensures !r.Empty?
    ensures r.Error? <==> doc.items.None? || !DishesPresent(doc.items.value)
    ensures r.Error? ==> r.error == (if doc.items.None? then NullItemList else NullDishReference)
    ensures r.Just? ==> r.value.id == doc.id && r.value.client == doc.client && r.value.items.Some?
    ensures r.Just? ==> r.value.items.value == ResolveLines(dishes, doc.items.value)
  {
    match doc.items
    case None => Error(NullItemList)
    case Some(lines) =>
      if DishesPresent(lines) then Just(doc.(items := Some(ResolveLines(dishes, lines))))
      else Error(NullDishReference)
  }

  /** The request `generatePDF` hands to the report library for a client that is present. */
  function RequestFor(client: Client, doc: InvoiceDoc): RenderRequest {
    RenderRequest(Template, map[TxtClient := client.firstName], doc.items)
  }

  /**
   `generatePDF`: the rendered bytes, or a zero-length array when anything in
   the try block fails (a null client included).
   */
  function RenderPdf(render: Renderer, doc: InvoiceDoc): seq<byte> {
    match doc.client
    case None => []
    case Some(c) =>
      match render(RequestFor(c, doc))
      case Some(pdf) => pdf
      case None => []
  }

  /** `generateReport`: the whole chain, with every error turned into an empty completion. */
  function Report(st: Stores, render: Renderer, id: string): Mono<seq<byte>, Fault> {
    FindById(st.invoices, id)
      .FlatMap((doc: InvoiceDoc) => ResolveClient(st.clients, doc))
      .FlatMap((doc: InvoiceDoc) => ResolveItems(st.dishes, doc))
      .Map((doc: InvoiceDoc) => RenderPdf(render, doc))
      .OnErrorResumeEmpty()
  }

  /** How far a report request gets, keeping the causes that `Report` collapses apart. */
  datatype Stage =
    | InvoiceMissing
    | ClientMissing
    | Faulted(fault: Fault)
    | Resolved(doc: InvoiceDoc)

  /** An independent, case-by-case account of the pipeline, without the `Mono` operators. */
  function Diagnose(st: Stores, id: string): Stage {
    if id !in st.invoices then InvoiceMissing
    else
      var doc := st.invoices[id];
      if doc.client.None? then Faulted(NullClientReference)
      else if doc.client.value.id !in st.clients then ClientMissing
      else if doc.items.None? then Faulted(NullItemList)
      else if !DishesPresent(doc.items.value) then Faulted(NullDishReference)
      else Resolved(InvoiceDoc(doc.id, Some(st.clients[doc.client.value.id]),
                               Some(ResolveLines(st.dishes, doc.items.value))))
  }

  /** `Report` is `Diagnose` with every stage but `Resolved` collapsed into an empty completion. */
  lemma ReportMatchesDiagnosis(st: Stores, render: Renderer, id: string)
    ensures Report(st, render, id) ==
              match Diagnose(st, id)
              case Resolved(doc) => Just(RenderPdf(render, doc))
              case _ => Empty
  {
  }

  /** No invoice: no report, whatever the other stores hold and whatever the renderer does. */
  lemma NoInvoiceNoReport(st: Stores, render: Renderer, id: string)
    requires id !in st.invoices
    ensures Report(st, render, id) == Empty
    ensures Diagnose(st, id) == InvoiceMissing
  {
  }

  /** A client id that is not in the client store: no report. */
  lemma UnresolvedClientNoReport(st: Stores, render: Renderer, id: string)
    requires id in st.invoices && st.invoices[id].client.Some?
    requires st.invoices[id].client.value.id !in st.clients
    ensures Report(st, render, id) == Empty
  {
  }

  /** Every error raised along the chain surfaces as an empty completion, never as an error. */
  lemma NoErrorEscapes(st: Stores, render: Renderer, id: string)
    ensures !Report(st, render, id).Error?
    ensures Diagnose(st, id).Faulted? ==> Report(st, render, id) == Empty
  {
  }

  // The outcome lemmas below follow directly from the contracts of
  // `ResolveClient`, `ResolveItems` and `ResolveLines`, and from `Diagnose`.

  /** The report is present exactly when the invoice and its client resolve and no reference is null. */
  lemma ReportPresentIff(st: Stores, render: Renderer, id: string)
    ensures Report(st, render, id).Just? <==>
              && id in st.invoices
              && st.invoices[id].client.Some?
              && st.invoices[id].client.value.id in st.clients
              && st.invoices[id].items.Some?
              && DishesPresent(st.invoices[id].items.value)
  {
  }

  /**
   Dish ids that are not in the dish store do not stop the report: it is
   rendered from the invoice in which those lines keep their id-only dish.
   */
  lemma MissingDishDoesNotAbort(st: Stores, render: Renderer, id: string, k: nat)
    requires id in st.invoices && st.invoices[id].client.Some?
    requires st.invoices[id].client.value.id in st.clients
    requires st.invoices[id].items.Some? && DishesPresent(st.invoices[id].items.value)
    requires k < |st.invoices[id].items.value|
    requires st.invoices[id].items.value[k].dish.value.id !in st.dishes
    ensures Diagnose(st, id).Resolved?
    ensures Diagnose(st, id).doc.items.value[k] == st.invoices[id].items.value[k]
    ensures Report(st, render, id) == Just(RenderPdf(render, Diagnose(st, id).doc))
  {
  }

  /**
   Once resolution succeeds, the renderer is given the template, the resolved
   client's first name as `txt_client` and the resolved items, in order, as
   rows; its bytes are the report, and a failure yields a present but
   zero-length report.
   */
  lemma RendererInput(st: Stores, render: Renderer, id: string)
    requires Diagnose(st, id).Resolved?
    ensures var doc := st.invoices[id];
            var client := st.clients[doc.client.value.id];
            var req := RenderRequest(Template, map[TxtClient := client.firstName],
                                     Some(ResolveLines(st.dishes, doc.items.value)));
            Report(st, render, id) == Just(if render(req).Some? then render(req).value else [])
  {
  }

  /** A renderer failure gives a present, zero-length report. */
  lemma RenderFailureYieldsEmptyBytes(st: Stores, render: Renderer, id: string)
    requires Diagnose(st, id).Resolved?
    requires render(RequestFor(Diagnose(st, id).doc.client.value, Diagnose(st, id).doc)).None?
    ensures Report(st, render, id) == Just([])
  {
  }

  /**
   The item lookups are independent: resolving a concatenation resolves each
   part. It follows from the contract of `ResolveLines`, which fixes every
   line of the result by the line at the same position alone.
   */
  lemma ResolveLinesAppend(dishes: map<string, Dish>, a: seq<Line>, b: seq<Line>)
    requires DishesPresent(a) && DishesPresent(b)
    ensures DishesPresent(a + b)
    ensures ResolveLines(dishes, a + b) == ResolveLines(dishes, a) + ResolveLines(dishes, b)
  {
  }

  /**
   An invoice whose client is stored and whose two lines refer to a stored
   dish and to a dish that is gone: the report is still rendered, the first
   line with the stored dish and the second with its id-only dish.
   */
  lemma ScenarioDeletedDish(render: Renderer)
    ensures var ana := Client("c1", Some("Ana"), Some("Diaz"), None, None);
            var soup := Dish("m1", Some("Soup"), None, Some(true));
            var st := Stores(map["i1" := InvoiceDoc("i1", Some(ClientRef("c1")),
                                                    Some([Line(Some(DishRef("m1")), 2), Line(Some(DishRef("m2")), 1)]))],
                             map["c1" := ana], map["m1" := soup]);
            var req := RenderRequest(Template, map[TxtClient := Some("Ana")],
                                     Some([Line(Some(soup), 2), Line(Some(DishRef("m2")), 1)]));
            Report(st, render, "i1") == Just(if render(req).Some? then render(req).value else [])
  {
    var ana := Client("c1", Some("Ana"), Some("Diaz"), None, None);
    var soup := Dish("m1", Some("Soup"), None, Some(true));
    var lines := [Line(Some(DishRef("m1")), 2), Line(Some(DishRef("m2")), 1)];
    var st := Stores(map["i1" := InvoiceDoc("i1", Some(ClientRef("c1")), Some(lines))],
                     map["c1" := ana], map["m1" := soup]);
    assert "m2" != "m1";
    assert ResolveLines(st.dishes, lines) == [Line(Some(soup), 2), Line(Some(DishRef("m2")), 1)];
    RendererInput(st, render, "i1");
  }
}
