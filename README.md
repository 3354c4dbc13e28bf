# Invoice report pipeline of the bar backend

This project models the invoice report of the bar's reactive backend:
`InvoiceServiceImpl.generateReport(idInvoice)`. The pipeline looks up an invoice and
replaces its id-only client with the stored client record (`populateClient`). It then
replaces each line item's id-only dish with the stored dish record (`populateItems`) and
hands the invoice to the report library (`generatePDF`). Any error along the way turns
into an empty result.

The three MongoDB repositories are a fixed snapshot of finite maps (`Stores`). A
repository lookup is `InvoiceReport.FindById`: it emits the record stored under the id,
or completes empty when there is none. A Reactor
`Mono` is the datatype `Reactor.Mono` with three outcomes: a value, an empty completion
or an error. `flatMap`, `map` and `onErrorResume` are its member functions. The
JasperReports compile-fill-export step is an opaque total function `Renderer` from a
`RenderRequest` to either bytes or a failure. The request holds the template path
`/facturas.jrxml`, the parameter map and the row source.

Files:

- `wrappers.dfy`: `Option`, used for references Java may leave `null`.
- `reactor.dfy`: `Mono` and the operators the pipeline chains together.
- `model.dfy`: the value records `Client` and `Dish`, and the values `Line` and
  `InvoiceDoc`. It also holds the classes `InvoiceDetail` and `Invoice`: the loaded object
  graph the pipeline updates in place. `Invoice.Value()` gives such a graph's value.
- `invoice_report.dfy`: the pipeline on values: `ResolveClient`, `ResolveItems`,
  `RenderPdf` and `Report`. It also holds an independent case-by-case account
  (`Diagnose`) and the lemmas about each outcome.
- `invoice_service_impl.dfy`: the service class. Its methods `PopulateClient`,
  `PopulateItems` and `GeneratePdf` update or read the loaded invoice. `GenerateReport`
  chains them. Each method is proved against its value-level counterpart. The helper
  `Load` stands for the invoice repository's `findById` at InvoiceServiceImpl.java:72:
  it turns the stored document into a fresh object graph holding the same value.

Modelling choices that follow the code:

- A line item whose dish id is not in the dish store does not abort the report: the line
  keeps its id-only dish and the report is still rendered, because `Mono.when` completes
  even when one of its sources completes empty (`ResolveItems`, `MissingDishDoesNotAbort`).
- An invoice whose references all resolve does not always give a non-empty document. A
  renderer failure gives a present, zero-length byte array (`RenderFailureYieldsEmptyBytes`).
- `populateItems` reads every line's dish id while it builds the list of lookups. The
  stream's `toList()` is eager, so this happens before any lookup runs. A `null` dish
  throws there, before any dish is set. In the model, the first loop of
  `InvoiceService.PopulateItems` collects the ids and the second loop sets the dishes
  that were found. Two positions in the item list may hold the same object.
- A `null` client, item list or dish raises a `NullPointerException` inside a `flatMap`
  step. That becomes an error, which `onErrorResume` turns into an empty result (`Fault`,
  `NoErrorEscapes`). A `null` client inside `generatePDF` is caught by its `try` and gives
  zero-length bytes (`RenderPdf`).
- The fields of `Invoice`, `InvoiceDetail` and `Client` (the `Model` classes and record)
  are inferred from how the service uses them. The active pipeline at
  InvoiceServiceImpl.java:36-62 reads and sets an invoice's client, reads its items, reads
  and sets a line item's dish, and reads a client's first name and a client's and dish's
  id. The invoice's id is the key it is stored and looked up under (line 72). The client's
  `lastName` comes from the commented-out variant at InvoiceServiceImpl.java:108 and from
  `ClientDTO.surname`. The birth date and photo come from `ClientDTO.java`. A line item
  carries its dish and a `quantity`, which stands for the rest of the line's data.
- `Dish` has the fields of `Dish.java`. The `Double` price is kept as its 64-bit pattern
  and never computed with.

## Model

| member | source | states |
|---|---|---|
| `InvoiceReport.ResolveClient` | src/main/java/com/bar/service/impl/InvoiceServiceImpl.java:35-41 | a null client is an error; otherwise the step emits exactly when the client id is stored, and then only the client changes, to the stored record, while id and items stay |
| `InvoiceReport.ResolveLines` | src/main/java/com/bar/service/impl/InvoiceServiceImpl.java:44-50 | same number of lines, in order; a line whose dish id is stored gets the stored dish, one whose id is absent is unchanged; quantities never change |
| `InvoiceReport.ResolveItems` | src/main/java/com/bar/service/impl/InvoiceServiceImpl.java:43-53 | the step never completes empty; it errors exactly when the item list or some dish is null; otherwise it emits the same invoice (id, client) with its lines resolved |
| `InvoiceReport.ReportMatchesDiagnosis` | src/main/java/com/bar/service/impl/InvoiceServiceImpl.java:71-77 | the report equals the case-by-case account: rendered bytes when every step succeeds, empty for a missing invoice, a missing client or any fault |
| `InvoiceReport.NoInvoiceNoReport` | src/main/java/com/bar/service/impl/InvoiceServiceImpl.java:72-75 | an id not in the invoice store gives an empty result for any client and dish store and any renderer |
| `InvoiceReport.UnresolvedClientNoReport` | src/main/java/com/bar/service/impl/InvoiceServiceImpl.java:36-40 | an invoice whose client id is not in the client store gives an empty result |
| `InvoiceReport.NoErrorEscapes` | src/main/java/com/bar/service/impl/InvoiceServiceImpl.java:76 | the report never completes with an error; every fault in the chain becomes an empty result |
| `InvoiceReport.ReportPresentIff` | src/main/java/com/bar/service/impl/InvoiceServiceImpl.java:71-77 | a report is present if and only if the invoice exists, its client is stored, and neither the item list nor any dish is null |
| `InvoiceReport.MissingDishDoesNotAbort` | src/main/java/com/bar/service/impl/InvoiceServiceImpl.java:44-52 | a line whose dish id is not stored keeps its id-only dish, and the report is still rendered from the resolved invoice |
| `InvoiceReport.RendererInput` | src/main/java/com/bar/service/impl/InvoiceServiceImpl.java:56-63 | after resolution the renderer gets the template, the resolved client's first name as `txt_client` and the resolved items in order as rows; its bytes, or zero-length bytes on failure, are the report |
| `InvoiceReport.RenderFailureYieldsEmptyBytes` | src/main/java/com/bar/service/impl/InvoiceServiceImpl.java:64-65 | a renderer failure after resolution gives a present, zero-length byte array, not an empty result |
| `InvoiceReport.ResolveLinesAppend` | src/main/java/com/bar/service/impl/InvoiceServiceImpl.java:44-52 | the item lookups are independent: resolving a concatenation of lines resolves each part separately |
| `InvoiceReport.ScenarioDeletedDish` | src/main/java/com/bar/service/impl/InvoiceServiceImpl.java:71-77 | an invoice for client Ana with a stored dish and a deleted dish is rendered with `txt_client` = Ana, the stored dish on the first line and the id-only dish on the second |
| `InvoiceServiceImpl.InvoiceService.constructor` | src/main/java/com/bar/service/impl/InvoiceServiceImpl.java:22-28 | the service holds the injected invoice, client and dish stores and the renderer |
| `InvoiceServiceImpl.InvoiceService.GetRepo` | src/main/java/com/bar/service/impl/InvoiceServiceImpl.java:30-33 | the CRUD store is exactly the one the report reads: it holds an id if and only if the invoice store does, a lookup finds the same invoice, and an id it does not hold never yields a report |
| `InvoiceServiceImpl.InvoiceService.PopulateClient` | src/main/java/com/bar/service/impl/InvoiceServiceImpl.java:35-41 | sets only the invoice's client field; it emits the same invoice object, whose value is the one `ResolveClient` gives; on an empty result or an error the client is untouched |
| `InvoiceServiceImpl.InvoiceService.PopulateItems` | src/main/java/com/bar/service/impl/InvoiceServiceImpl.java:43-53 | sets only the line items' dish fields; it emits the same invoice object, whose value is the one `ResolveItems` gives; on an error no dish has been set |
| `InvoiceServiceImpl.InvoiceService.GeneratePdf` | src/main/java/com/bar/service/impl/InvoiceServiceImpl.java:56-67 | fills the parameter map with `txt_client` and returns the renderer's bytes, or zero-length bytes on failure or a null client, as `RenderPdf` says |
| `InvoiceServiceImpl.InvoiceService.GenerateReport` | src/main/java/com/bar/service/impl/InvoiceServiceImpl.java:70-77 | loading, resolving in place and rendering give exactly the value-level `Report` for the id |

## Left out

- The HTTP controllers, DTO mapping, HATEOAS links, pagination and the photo upload are
  left out. They are routing and foreign-library plumbing around the service.
- The generic CRUD operations inherited from `CRUDImpl` are left out, apart from
  `getRepo`. `CRUDImpl.java` is not part of this model.
- The commented-out variant of `generateReport` (InvoiceServiceImpl.java:80-119) is dead
  code and is not modelled.
- JasperReports compilation, filling and PDF export, and loading the template resource,
  are a foreign library. They are the opaque `Renderer`. That a missing template or a bad
  binding fails is up to that function.
- Reactor scheduling and the parallel fan-out of `Mono.when` are left out. Each lookup
  reads the same snapshot and writes only its own line, so the lookups run as a
  sequential loop. `ResolveLinesAppend` states their independence.
- Store read errors and concurrent changes to the stores during a report are left out.
  The stores are one fixed snapshot, and the invoice store holds values that each report
  loads into fresh objects.
- `null` ids, and `null` elements inside the item list, are not modelled. Ids are always
  strings and the item list holds objects.
- The `@Size`, `@Min` and `@Max` constraints of the DTOs are left out. Bean Validation
  enforces them, not code in this repository.
