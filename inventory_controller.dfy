/** The inventory controller: listing the products of the request's tenant and
    creating a product stamped with that tenant. Both handlers read the tenant only
    from `req.tenantId`, which the authentication middleware bound. Whether the
    database answers a query at all, and what it answers to an insert, are inputs. */
module InventoryController {
  import opened Base
  import opened Json
  import opened ProductStore
  import opened Http

  const RetrieveFailedMessage := "Failed to retrieve vault data."
  const CreateFailedMessage := "Invalid product data or SKU already exists."

  /** The reply of `getInventory` for a tenant; `retrieved` is false when the query throws. */
  function ListReply(rows: seq<Product>, tenant: Option<Json>, retrieved: bool): Reply
  {
    if retrieved then Reply(200, ProductsBody(OwnedBy(rows, tenant)))
    else Reply(500, ErrorBody(RetrieveFailedMessage))
  }

  /** `{ name, sku, stock, priceUSD } = req.body` and `companyId: req.tenantId`. */
  function DraftOf(body: map<string, Json>, tenant: Option<Json>): Draft
  {
    Draft(Get(body, "name"), Get(body, "sku"), Get(body, "stock"),
          Get(body, "priceUSD"), tenant)
  }

  /** The reply of `addProduct` and the table afterwards. */
  function CreateResult(rows: seq<Product>, body: map<string, Json>, tenant: Option<Json>,
                        outcome: StoreOutcome): (Reply, seq<Product>)
  {
    match outcome
    case Inserted(id) =>
      var p := Persisted(DraftOf(body, tenant), id);
      (Reply(201, ProductBody(p)), rows + [p])
    case Refused => (Reply(400, ErrorBody(CreateFailedMessage)), rows)
  }

  /** `getInventory(req, res)`. The product table is only read. */
  method GetInventory(req: Request, res: Response, table: ProductTable, retrieved: bool)
    modifies res
    ensures res.sent == Some(ListReply(table.rows, req.tenantId, retrieved).body)
    ensures res.statusCode == if retrieved then old(res.statusCode) else 500
  {
    if retrieved {
      var products := table.FindAll(req.tenantId);
      res.SendJson(ProductsBody(products));
    } else {
      res.Status(500);
      res.SendJson(ErrorBody(RetrieveFailedMessage));
    }
  }

  /** `addProduct(req, res)`: the created row carries `req.tenantId`, never a tenant
      named in the body; a refused insert leaves the table as it was. */
  method AddProduct(req: Request, res: Response, table: ProductTable, outcome: StoreOutcome)
    modifies res, table
    ensures var (reply, rows) := CreateResult(old(table.rows), req.body, req.tenantId, outcome);
            res.statusCode == reply.status && res.sent == Some(reply.body) && table.rows == rows
  {
    var draft := DraftOf(req.body, req.tenantId);
    var created := table.Create(draft, outcome);
    match created
    case Some(product) =>
      res.Status(201);
      res.SendJson(ProductBody(product));
    case None =>
      res.Status(400);
      res.SendJson(ErrorBody(CreateFailedMessage));
  }

  /** A successful listing holds exactly the tenant's rows: each listed row has the
      tenant, and every row of the tenant is listed as often as it is stored. */
  lemma ListedAreExactlyTenants(rows: seq<Product>, tenant: Option<Json>, p: Product)
    ensures ListReply(rows, tenant, true).status == 200
    ensures var listed := ListReply(rows, tenant, true).body.products;
            (p in listed <==> p in rows && p.companyId == tenant) &&
            multiset(listed)[p] == if p.companyId == tenant then multiset(rows)[p] else 0
  {
    OwnedByExact(rows, tenant, p);
  }

  /** The lists returned under two different tenants share no row. */
  lemma ListsOfTenantsDisjoint(rows: seq<Product>, a: Option<Json>, b: Option<Json>)
    requires a != b
    ensures forall p :: p in ListReply(rows, a, true).body.products ==> p !in ListReply(rows, b, true).body.products
  {
    OwnedByDisjoint(rows, a, b);
  }

  /** The draft depends on four body fields and the bound tenant only: a `companyId`
      (or anything else) in the body changes nothing, and the tenant is always stamped. */
  lemma DraftIgnoresOtherFields(b1: map<string, Json>, b2: map<string, Json>, tenant: Option<Json>)
    requires forall k :: k in ["name", "sku", "stock", "priceUSD"] ==> Get(b1, k) == Get(b2, k)
    ensures DraftOf(b1, tenant) == DraftOf(b2, tenant)
    ensures DraftOf(b1, tenant).companyId == tenant
  {
    assert "name" in ["name", "sku", "stock", "priceUSD"];
    assert "sku" in ["name", "sku", "stock", "priceUSD"];
    assert "stock" in ["name", "sku", "stock", "priceUSD"];
    assert "priceUSD" in ["name", "sku", "stock", "priceUSD"];
  }

  /** A spoofed `companyId` in the body is ignored: the created row has the bound tenant. */
  lemma CreateIgnoresBodyTenant(rows: seq<Product>, body: map<string, Json>, spoofed: Json,
                                tenant: Option<Json>, id: nat)
    ensures var (reply, rows') := CreateResult(rows, body["companyId" := spoofed], tenant, Inserted(id));
            reply.body.product.companyId == tenant &&
            reply == CreateResult(rows, body, tenant, Inserted(id)).0
  {
    DraftIgnoresOtherFields(body["companyId" := spoofed], body, tenant);
  }

  /** A successful create answers 201 with the new row and grows the table by exactly
      that row: the tenant's list gains it at the end and every other list is unchanged.
      A refused create answers 400 and changes nothing. */
  lemma CreateEffect(rows: seq<Product>, body: map<string, Json>, tenant: Option<Json>,
                     outcome: StoreOutcome, other: Option<Json>)
    ensures var (reply, rows') := CreateResult(rows, body, tenant, outcome);
            match outcome
            case Inserted(id) =>
              var p := Persisted(DraftOf(body, tenant), id);
              reply == Reply(201, ProductBody(p)) && rows' == rows + [p] && p.companyId == tenant &&
              OwnedBy(rows', tenant) == OwnedBy(rows, tenant) + [p] &&
              (other != tenant ==> OwnedBy(rows', other) == OwnedBy(rows, other))
            case Refused =>
              reply == Reply(400, ErrorBody(CreateFailedMessage)) && rows' == rows
  {
    if outcome.Inserted? {
      var p := Persisted(DraftOf(body, tenant), outcome.id);
      OwnedByAppend(rows, p, tenant);
      OwnedByAppend(rows, p, other);
    }
  }

  /** Two tenants may store the same SKU: company A stores "PH-AMX-001" with stock 150,
      company B the same SKU with stock 10, both inserts succeed, and each company then
      lists only its own row. */
  lemma SameSkuForTwoTenants()
    ensures var tA, tB := Some(JString("COMP-001")), Some(JString("COMP-002"));
            var createA := CreateResult([], map["sku" := JString("PH-AMX-001"), "stock" := JNumber("150")], tA, Inserted(1));
            var createB := CreateResult(createA.1, map["sku" := JString("PH-AMX-001"), "stock" := JNumber("10")], tB, Inserted(2));
            var rows := createB.1;
            createA.0.status == 201 && createB.0.status == 201 && |rows| == 2 &&
            rows[0].sku == rows[1].sku == Some(JString("PH-AMX-001")) &&
            ListReply(rows, tA, true) == Reply(200, ProductsBody([rows[0]])) && rows[0].stock == Some(JNumber("150")) &&
            ListReply(rows, tB, true) == Reply(200, ProductsBody([rows[1]])) && rows[1].stock == Some(JNumber("10"))
  {
    var tA, tB := Some(JString("COMP-001")), Some(JString("COMP-002"));
    var bodyA := map["sku" := JString("PH-AMX-001"), "stock" := JNumber("150")];
    var bodyB := map["sku" := JString("PH-AMX-001"), "stock" := JNumber("10")];
    var pA := Persisted(DraftOf(bodyA, tA), 1);
    var pB := Persisted(DraftOf(bodyB, tB), 2);
    assert pA.sku == Some(JString("PH-AMX-001")) && pA.stock == Some(JNumber("150"));
    assert pB.sku == Some(JString("PH-AMX-001")) && pB.stock == Some(JNumber("10"));
    assert [] + [pA] == [pA];
    assert [pA] + [pB] == [pA, pB];
    assert CreateResult([], bodyA, tA, Inserted(1)) == (Reply(201, ProductBody(pA)), [pA]);
    assert CreateResult([pA], bodyB, tB, Inserted(2)) == (Reply(201, ProductBody(pB)), [pA, pB]);
    OwnedByAppend([], pA, tA);
    OwnedByAppend([], pA, tB);
    OwnedByAppend([pA], pB, tA);
    OwnedByAppend([pA], pB, tB);
    assert OwnedBy([pA, pB], tA) == [pA];
    assert OwnedBy([pA, pB], tB) == [pB];
    assert ListReply([pA, pB], tA, true) == Reply(200, ProductsBody([pA]));
  }
}
