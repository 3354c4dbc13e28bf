/**
 The documents of the bar's store: clients, dishes and invoices with their
 line items. Clients and dishes are plain records (values). An invoice and its
 line items are objects, because the report pipeline updates them in place:
 it replaces the invoice's client and each line item's dish.

 A reference that Java may leave `null` is an `Option`. A reference that the
 store holds only by id is a record whose other fields are `None`
 (`ClientRef`, `DishRef`).
 */
module Model {
  import opened Wrappers

  newtype byte = b: int | 0 <= b < 0x100

  /** A `Double` price, kept as its IEEE 754 bit pattern: the pipeline never computes with it. */
  datatype Price = Price(bits: bv64)

  datatype LocalDate = LocalDate(year: int, month: int, day: int)

  datatype Client = Client(
    id: string,
    firstName: Option<string>,
    lastName: Option<string>,
    birthDate: Option<LocalDate>,
    photoUrl: Option<string>)

  datatype Dish = Dish(
    id: string,
    name: Option<string>,
    price: Option<Price>,
    status: Option<bool>)

  /** The id-only client an invoice is stored with. */
  function ClientRef(id: string): Client {
    Client(id, None, None, None, None)
  }

  /** The id-only dish a line item is stored with. */
  function DishRef(id: string): Dish {
    Dish(id, None, None, None)
  }

  /** The value of one line item: the dish it refers to and its quantity. */
  datatype Line = Line(dish: Option<Dish>, quantity: int)

  /** The value of an invoice, as it is kept in the invoice store. */
  datatype InvoiceDoc = InvoiceDoc(id: string, client: Option<Client>, items: Option<seq<Line>>)

  /** A line item of a loaded invoice; the report pipeline sets its dish. */
  class InvoiceDetail {
    var dish: Option<Dish>
    var quantity: int

    constructor (line: Line)
      ensures Value() == line
    {
      dish := line.dish;
      quantity := line.quantity;
    }

    function Value(): Line
      reads this
    {
      Line(dish, quantity)
    }
  }

  /** A loaded invoice; the report pipeline sets its client. */
  class Invoice {
    var id: string
    var client: Option<Client>
    var items: Option<seq<InvoiceDetail>>

    constructor (id: string, client: Option<Client>, items: Option<seq<InvoiceDetail>>)
      ensures this.id == id && this.client == client && this.items == items
    {
      this.id := id;
      this.client := client;
      this.items := items;
    }

    /** The line-item objects the invoice holds. */
    function Details(): set<InvoiceDetail>
      reads this`items
    {
      match items
      case None => {}
      case Some(ds) => set d | d in ds
    }

    /** The invoice as a value: its id, its client and the values of its line items, in order. */
    function Value(): (doc: InvoiceDoc)
      reads this, Details()
      ensures doc.id == id && doc.client == client
      ensures items.None? <==> doc.items.None?
      ensures items.Some? ==> |doc.items.value| == |items.value|
      ensures items.Some? ==> forall k :: 0 <= k < |items.value| ==> doc.items.value[k] == items.value[k].Value()
    {
      InvoiceDoc(id, client, LinesOf(items))
    }
  }

  /** The values of a (possibly null) list of line items, in order. */
  function LinesOf(ds: Option<seq<InvoiceDetail>>): (lines: Option<seq<Line>>)
    reads set d | ds.Some? && d in ds.value
    ensures ds.None? <==> lines.None?
    ensures ds.Some? ==> |lines.value| == |ds.value|
    ensures ds.Some? ==> forall k :: 0 <= k < |ds.value| ==> lines.value[k] == ds.value[k].Value()
  {
    match ds
    case None => None
    case Some(s) => Some(seq(|s|, k requires 0 <= k < |s| reads s => s[k].Value()))
  }
}
