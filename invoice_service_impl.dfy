/**
 `InvoiceServiceImpl`: the invoice service with its injected stores and the
 four-step report pipeline, working on the loaded invoice object in place.
 Each step is proved against its value-level counterpart in `InvoiceReport`.
 */
module InvoiceServiceImpl {
  import opened Wrappers
  import opened Reactor
  import opened Model
  import opened InvoiceReport

  /**
   How one step of the pipeline completes, related to the step's value-level
   result: an emission is the same invoice object, now holding the emitted value.
   */
  ghost predicate Mirrors(r: Mono<Invoice, Fault>, inv: Invoice, s: Mono<InvoiceDoc, Fault>)
    reads inv, inv.Details()
  {
    match s
    case Just(doc) => r == Just(inv) && inv.Value() == doc
    case Empty => r == Empty
    case Error(e) => r == Error(e)
  }

  /** `findById` on the invoice store: a freshly loaded object graph holding the stored value. */
  method Load(doc: InvoiceDoc) returns (inv: Invoice)
    ensures fresh(inv) && fresh(inv.Details())
    ensures inv.Value() == doc
  {
    var items: Option<seq<InvoiceDetail>> := None;
    if doc.items.Some? {
      var lines := doc.items.value;
      var ds: seq<InvoiceDetail> := [];
      var k := 0;
      while k < |lines|
        invariant 0 <= k <= |lines| && |ds| == k
        invariant forall j :: 0 <= j < k ==> fresh(ds[j]) && ds[j].Value() == lines[j]
      {
        var d := new InvoiceDetail(lines[k]);
        ds := ds + [d];
        k := k + 1;
      }
      items := Some(ds);
    }
    inv := new Invoice(doc.id, doc.client, items);
    assert inv.Value().items == doc.items by {
      if doc.items.Some? {
        assert inv.Value().items.value == doc.items.value;
      }
    }
  }

  class InvoiceService {
    const stores: Stores
    const renderer: Renderer

    /** The injected invoice, client and dish stores, and the report library behind `generatePDF`. */
    constructor (invoiceRepo: map<string, InvoiceDoc>, clientRepo: map<string, Client>,
                 dishRepo: map<string, Dish>, renderer: Renderer)
      ensures stores == Stores(invoiceRepo, clientRepo, dishRepo)
      ensures this.renderer == renderer
    {
      stores := Stores(invoiceRepo, clientRepo, dishRepo);
      this.renderer := renderer;
    }

    /**
     The store the inherited CRUD operations work on. It is exactly the store
     `generateReport` reads: it holds the same ids, with the same invoices, and
     an id it does not hold never yields a report.
     */
    function GetRepo(): (repo: map<string, InvoiceDoc>)
      ensures forall id :: id in repo <==> id in stores.invoices
      ensures forall id :: id !in repo ==> Report(stores, renderer, id) == Empty
      ensures forall id :: id in repo ==> FindById(stores.invoices, id) == Just(repo[id])
    {
      stores.invoices
    }

    /** `populateClient`: on a hit, only the invoice's client changes, to the stored record. */
    method PopulateClient(inv: Invoice) returns (r: Mono<Invoice, Fault>)
      modifies inv`client
      ensures Mirrors(r, inv, ResolveClient(stores.clients, old(inv.Value())))
      ensures !r.Just? ==> inv.client == old(inv.client)
    {
      if inv.client.None? {
        return Error(NullClientReference);
      }
      var id := inv.client.value.id;
      if id in stores.clients {
        inv.client := Some(stores.clients[id]);
        r := Just(inv);
      } else {
        r := Empty;
      }
    }

    /**
     `populateItems`: building the list of lookups reads every line's dish id
     (a null dish throws there, before anything is set); each lookup that
     finds its dish then sets it on its own line. The invoice itself is
     emitted whether or not the lookups found anything.
     */
    method PopulateItems(inv: Invoice) returns (r: Mono<Invoice, Fault>)
      modifies inv.Details()`dish
      ensures Mirrors(r, inv, ResolveItems(stores.dishes, old(inv.Value())))
      ensures !r.Just? ==> forall d :: d in inv.Details() ==> d.dish == old(d.dish)
    {
      if inv.items.None? {
        return Error(NullItemList);
      }
      var details := inv.items.value;
      ghost var lines := inv.Value().items.value;
      assert forall j :: 0 <= j < |details| ==> lines[j] == details[j].Value();
      var ids: seq<string> := [];
      var k := 0;
      while k < |details|
        invariant 0 <= k <= |details| && |ids| == k
        invariant forall j :: 0 <= j < k ==> lines[j].dish.Some? && ids[j] == lines[j].dish.value.id
      {
        if details[k].dish.None? {
          assert lines[k].dish.None?;
          return Error(NullDishReference);
        }
        ids := ids + [details[k].dish.value.id];
        k := k + 1;
      }
      assert DishesPresent(lines);
      assert forall j, m :: 0 <= j < |details| && 0 <= m < |details| && details[j] == details[m] ==>
        ids[j] == ids[m] && lines[j] == lines[m];

      var i := 0;
      while i < |details|
        invariant 0 <= i <= |details|
        invariant forall j :: 0 <= j < |details| ==> details[j].quantity == lines[j].quantity
        invariant forall j :: 0 <= j < |details| ==>
          details[j].dish == lines[j].dish || (ids[j] in stores.dishes && details[j].dish == Some(stores.dishes[ids[j]]))
        invariant forall j :: 0 <= j < i && ids[j] in stores.dishes ==> details[j].dish == Some(stores.dishes[ids[j]])
      {
        if ids[i] in stores.dishes {
          details[i].dish := Some(stores.dishes[ids[i]]);
        }
        i := i + 1;
      }
      ghost var resolved := ResolveLines(stores.dishes, lines);
      assert forall j :: 0 <= j < |details| ==> details[j].Value() == resolved[j];
      assert inv.Value().items.value == resolved;
      r := Just(inv);
    }

    /**
     `generatePDF`: bind the client's first name as `txt_client`, use the
     items as the row source, and fall back to zero-length bytes on failure.
     */
    method GeneratePdf(inv: Invoice) returns (pdf: seq<byte>)
      ensures pdf == RenderPdf(renderer, inv.Value())
    {
      if inv.client.None? {
        return [];
      }
      var parameters: map<string, Option<string>> := map[];
      parameters := parameters[TxtClient := inv.client.value.firstName];
      var rendered := renderer(RenderRequest(Template, parameters, LinesOf(inv.items)));
      if rendered.Some? {
        pdf := rendered.value;
      } else {
        pdf := [];
      }
    }

    /** `generateReport`: load, resolve the client, resolve the items, render; any error gives an empty completion. */
    method GenerateReport(idInvoice: string) returns (r: Mono<seq<byte>, Fault>)
      ensures r == Report(stores, renderer, idInvoice)
    {
      var result: Mono<seq<byte>, Fault>;
      if idInvoice in stores.invoices {
        var inv := Load(stores.invoices[idInvoice]);
        var withClient := PopulateClient(inv);
        if withClient.Just? {
          var withItems := PopulateItems(inv);
          if withItems.Just? {
            var pdf := GeneratePdf(inv);
            result := Just(pdf);
          } else {
            result := withItems.Propagate();
          }
        } else {
          result := withClient.Propagate();
        }
      } else {
        result := Empty;
      }
      r := result.OnErrorResumeEmpty();
    }
  }
}
