/** The `Product` table behind the inventory controller. The persistence engine
    is a collaborator: its answer to an insert (a fresh primary key, or a refusal
    such as a violated SKU constraint) is an input to the model, never invented. */
module ProductStore {
  import opened Base
  import opened Json

  /** The columns the controller hands to `Product.create`; `None` is `undefined`. */
  datatype Draft = Draft(
    name: Option<Json>,
    sku: Option<Json>,
    stock: Option<Json>,
    priceUSD: Option<Json>,
    companyId: Option<Json>)

  /** A stored product row: the draft's columns and the key the store assigned. */
  datatype Product = Product(
    id: nat,
    name: Option<Json>,
    sku: Option<Json>,
    stock: Option<Json>,
    priceUSD: Option<Json>,
    companyId: Option<Json>)

  /** The row stored for a draft under the key the store assigned. */
  function Persisted(d: Draft, id: nat): Product
  {
    Product(id, d.name, d.sku, d.stock, d.priceUSD, d.companyId)
  }

  /** What the store answers to an insert. */
  datatype StoreOutcome = Inserted(id: nat) | Refused

  /** `findAll({ where: { companyId: tenant } })`: the rows owned by `tenant`, in table order. */
  function OwnedBy(rows: seq<Product>, tenant: Option<Json>): (r: seq<Product>)
  {
    Filter(rows, (p: Product) => p.companyId == tenant)
  }

  /** Every listed row belongs to the tenant, and every row of the tenant is listed
      as often as it is stored. */
  lemma OwnedByExact(rows: seq<Product>, tenant: Option<Json>, p: Product)
    ensures p in OwnedBy(rows, tenant) <==> p in rows && p.companyId == tenant
    ensures multiset(OwnedBy(rows, tenant))[p] == if p.companyId == tenant then multiset(rows)[p] else 0
  {
    FilterMembership(rows, (p: Product) => p.companyId == tenant, p);
    FilterCount(rows, (p: Product) => p.companyId == tenant, p);
  }

  /** The lists two different tenants see share no row. */
  lemma OwnedByDisjoint(rows: seq<Product>, a: Option<Json>, b: Option<Json>)
    requires a != b
    ensures forall p :: p in OwnedBy(rows, a) ==> p !in OwnedBy(rows, b)
  {
    forall p | p in OwnedBy(rows, a) ensures p !in OwnedBy(rows, b) {
      OwnedByExact(rows, a, p);
      OwnedByExact(rows, b, p);
    }
  }

  /** Appending a row of tenant `t` extends `t`'s list by that row and leaves every
      other tenant's list as it was. */
  lemma OwnedByAppend(rows: seq<Product>, p: Product, tenant: Option<Json>)
    ensures OwnedBy(rows + [p], tenant) ==
              if p.companyId == tenant then OwnedBy(rows, tenant) + [p] else OwnedBy(rows, tenant)
  {
    FilterAppend(rows, [p], (q: Product) => q.companyId == tenant);
  }

  /** The Sequelize model `Product`, as the table it manages. */
  class ProductTable {
    var rows: seq<Product>

    constructor(initial: seq<Product>)
      ensures rows == initial
    {
      rows := initial;
    }

    /** `Product.findAll({ where: { companyId: tenant } })`. */
    method FindAll(tenant: Option<Json>) returns (found: seq<Product>)
      ensures forall p :: p in found <==> p in rows && p.companyId == tenant
      ensures found == OwnedBy(rows, tenant)
    {
      found := OwnedBy(rows, tenant);
      forall p ensures p in found <==> p in rows && p.companyId == tenant {
        OwnedByExact(rows, tenant, p);
      }
    }

    /** `Product.create(draft)`: on `Inserted(id)` the row is appended and returned;
        on `Refused` the table is left as it was. */
    method Create(draft: Draft, outcome: StoreOutcome) returns (created: Option<Product>)
      modifies this
      ensures outcome.Inserted? ==> created == Some(Persisted(draft, outcome.id)) && rows == old(rows) + [created.value]
      ensures outcome.Refused? ==> created == None && rows == old(rows)
    {
      match outcome
      case Inserted(id) =>
        var p := Persisted(draft, id);
        rows := rows + [p];
        created := Some(p);
      case Refused =>
        created := None;
    }
  }
}
