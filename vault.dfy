/** The Gemini client's in-memory vault (`app.jsx`): mock users and companies, an
    inventory shared by all companies of which each signed-in user sees only their
    company's part, and an audit log of logins and inventory changes. The React state
    of the component is the `Vault` object; each event handler is a method. The clock,
    `Math.random` and the user's typing are inputs. */
module Vault {
  import opened Base
  import opened JsStrings

  datatype MockUser = MockUser(id: string, email: string, password: string, companyId: string, role: string)

  datatype CompanyProfile = CompanyProfile(name: string, region: string, securityLevel: string, logoColor: string)

  /** `{ id, ...MOCK_COMPANIES[id] }`: the id and, when the id is known, its profile. */
  datatype Company = Company(id: string, profile: Option<CompanyProfile>)

  const MockCompanies: map<string, CompanyProfile> := map[
    "COMP-001" := CompanyProfile("HealthCorp India", "IN", "Enterprise", "bg-emerald-600"),
    "COMP-002" := CompanyProfile("BioPharma Global", "US", "High-Compliance", "bg-blue-600")
  ]

  const MockUsers: seq<MockUser> := [
    MockUser("u1", "owner@pharminto.com", "password123", "COMP-001", "SuperAdmin"),
    MockUser("u2", "admin@biopharma.com", "password123", "COMP-002", "Admin")
  ]

  /** A price in US dollars; the model never computes with it. */
  type Price = real

  datatype Item = Item(id: int, name: string, sku: string, stock: int, priceUSD: Price, companyId: string)

  const InitialInventory: seq<Item> := [
    Item(1, "Amoxicillin 500mg", "PH-AMX-001", 150, 12.50, "COMP-001"),
    Item(2, "Paracetamol 650mg", "PH-PCM-002", 500, 5.20, "COMP-001"),
    Item(3, "Atorvastatin 20mg", "PH-ATR-003", 85, 25.00, "COMP-002")
  ]

  datatype LogEntry = LogEntry(id: int, timestamp: string, user: string, action: string, details: string, ipHash: string)

  /** What a log entry takes from the environment: `Date.now()`, `new Date().toISOString()`
      and the hex digits drawn from `Math.random()`. */
  datatype Stamp = Stamp(now: int, isoTime: string, randomHex: string)

  /** The add-product form: every field is the text of an input. */
  datatype Form = Form(name: string, sku: string, stock: string, price: string)

  const EmptyForm := Form("", "", "", "")

  datatype View = LoginView | DashboardView

  /** `MOCK_USERS.find(u => u.email === email && u.password === pass)`. */
  function FindUser(users: seq<MockUser>, email: string, pass: string): (r: Option<MockUser>)
    ensures r.None? <==> forall i :: 0 <= i < |users| ==> !(users[i].email == email && users[i].password == pass)
    ensures r.Some? ==> r.value in users && r.value.email == email && r.value.password == pass
  {
    if users == [] then None
    else if users[0].email == email && users[0].password == pass then Some(users[0])
    else FindUser(users[1..], email, pass)
  }

  /** The account found is the first matching one. */
  lemma {:induction false} FindUserFirst(users: seq<MockUser>, email: string, pass: string)
    requires FindUser(users, email, pass).Some?
    ensures exists i :: 0 <= i < |users| && users[i] == FindUser(users, email, pass).value &&
              forall j :: 0 <= j < i ==> !(users[j].email == email && users[j].password == pass)
  {
    if !(users[0].email == email && users[0].password == pass) {
      var tail := users[1..];
      FindUserFirst(tail, email, pass);
      var i :| 0 <= i < |tail| && tail[i] == FindUser(tail, email, pass).value &&
               forall j :: 0 <= j < i ==> !(tail[j].email == email && tail[j].password == pass);
      assert users[i + 1] == tail[i];
      forall j | 0 <= j < i + 1 ensures !(users[j].email == email && users[j].password == pass) {
        if j > 0 { assert users[j] == tail[j - 1]; }
      }
    } else {
      assert users[0] == FindUser(users, email, pass).value;
    }
  }

  /** The company object set on login. */
  function CompanyOf(id: string): Company
  {
    Company(id, Get(MockCompanies, id))
  }

  /** `item => item.companyId === company?.id`; with no company the id is `undefined`,
      which no item's string id equals. */
  function InCompany(company: Option<Company>): Item -> bool
  {
    (it: Item) => company.Some? && it.companyId == company.value.id
  }

  /** `companyInventory`. */
  function CompanyItems(items: seq<Item>, company: Option<Company>): seq<Item>
  {
    Filter(items, InCompany(company))
  }

  /** `p => p.name.toLowerCase().includes(searchTerm.toLowerCase())`. */
  function NameMatches(term: string): Item -> bool
  {
    (it: Item) => Contains(ToLower(it.name), ToLower(term))
  }

  /** The rows of the inventory table for a search term. */
  function SearchRows(rows: seq<Item>, term: string): seq<Item>
  {
    Filter(rows, NameMatches(term))
  }

  /** `p => p.id !== id`. */
  function NotId(id: int): Item -> bool
  {
    (it: Item) => it.id != id
  }

  /** The inventory after deleting by id. */
  function WithoutId(items: seq<Item>, id: int): seq<Item>
  {
    Filter(items, NotId(id))
  }

  /** `parseInt(text) || 0`: `NaN` (and zero) become 0. */
  function StockOf(text: string): int
  {
    match ParseInt(text)
    case Some(n) => n
    case None => 0
  }

  function AuditEntry(actor: string, action: string, details: string, stamp: Stamp): LogEntry
  {
    LogEntry(stamp.now, stamp.isoTime, actor, action, details, "SHA256:..." + stamp.randomHex)
  }

  const LoginAction := "AUTH_LOGIN"
  const LoginDetails := "Secure session established via web gateway."
  const FailureAction := "AUTH_FAILURE"

  function FailureDetails(email: string): string
  {
    "Failed login attempt for " + email
  }

  function CreatedDetails(sku: string): string
  {
    "SKU " + sku + " added to vault."
  }

  function PurgedDetails(sku: string): string
  {
    "SKU " + sku + " purged from vault."
  }

  /** The item `handleAddProduct` builds; the price is taken already converted to US dollars. */
  function NewItem(form: Form, company: Company, id: int, priceUSD: Price): Item
  {
    Item(id, form.name, form.sku, StockOf(form.stock), priceUSD, company.id)
  }

  /** The component's state and its event handlers. */
  class Vault {
    var view: View
    var user: Option<MockUser>
    var company: Option<Company>
    var isLoading: bool
    var logs: seq<LogEntry>
    var inventory: seq<Item>
    var isAddingProduct: bool
    var newProduct: Form
    var searchTerm: string

    /** What every reachable state keeps: the dashboard is only shown once a user has
        signed in, so its handlers always have a user and a company to work with. */
    predicate Valid()
      reads this
    {
      view == DashboardView ==> user.Some? && company.Some?
    }

    /** The initial state of every `useState`. */
    constructor()
      ensures Valid()
      ensures view == LoginView && user == None && company == None && !isLoading && logs == []
      ensures inventory == InitialInventory && !isAddingProduct && newProduct == EmptyForm && searchTerm == ""
    {
      view := LoginView;
      user := None;
      company := None;
      isLoading := false;
      logs := [];
      inventory := InitialInventory;
      isAddingProduct := false;
      newProduct := EmptyForm;
      searchTerm := "";
    }

    /** The items the current company sees. */
    function CompanyInventory(): seq<Item>
      reads this
    {
      CompanyItems(inventory, company)
    }

    /** The rows the inventory table shows. */
    function VisibleRows(): seq<Item>
      reads this
    {
      SearchRows(CompanyInventory(), searchTerm)
    }

    /** `addAuditLog(action, details)`: the new entry, naming the current user, goes first
        and the older entries follow unchanged. It reads `user.email`, so it needs a user. */
    method AddAuditLog(action: string, details: string, stamp: Stamp)
      requires user.Some?
      modifies this
      ensures logs == [AuditEntry(old(user).value.email, action, details, stamp)] + old(logs)
      ensures view == old(view) && user == old(user) && company == old(company) && isLoading == old(isLoading)
      ensures inventory == old(inventory) && isAddingProduct == old(isAddingProduct)
      ensures newProduct == old(newProduct) && searchTerm == old(searchTerm)
    {
      logs := [AuditEntry(user.value.email, action, details, stamp)] + logs;
    }

    /** `handleAuth` as written. The log call reads `user` from the render the handler
        belongs to, i.e. the user before this login; when that is `null` the call throws
        (`thrown`), after `user` and `company` are set but before the view changes and
        before `isLoading` is cleared. */
    method HandleAuthAsWritten(email: string, pass: string, stamp: Stamp) returns (thrown: bool)
      requires Valid()
      modifies this
      ensures Valid()
      ensures thrown <==> old(user).None?
      ensures inventory == old(inventory) && isAddingProduct == old(isAddingProduct)
      ensures newProduct == old(newProduct) && searchTerm == old(searchTerm)
      ensures var found := FindUser(MockUsers, email, pass);
              (found.Some? ==> user == found && company == Some(CompanyOf(found.value.companyId))) &&
              (found.None? ==> user == old(user) && company == old(company)) &&
              (thrown ==> view == old(view) && isLoading && logs == old(logs)) &&
              (!thrown ==>
                 (!isLoading &&
                  view == (if found.Some? then DashboardView else old(view)) &&
                  logs == [if found.Some? then AuditEntry(old(user).value.email, LoginAction, LoginDetails, stamp)
                           else AuditEntry(old(user).value.email, FailureAction, FailureDetails(email), stamp)] + old(logs)))
    {
      isLoading := true;
      var renderedUser := user;
      var found := FindUser(MockUsers, email, pass);
      if found.Some? {
        user := found;
        company := Some(CompanyOf(found.value.companyId));
        if renderedUser.None? {
          return true;
        }
        logs := [AuditEntry(renderedUser.value.email, LoginAction, LoginDetails, stamp)] + logs;
        view := DashboardView;
      } else {
        if renderedUser.None? {
          return true;
        }
        logs := [AuditEntry(renderedUser.value.email, FailureAction, FailureDetails(email), stamp)] + logs;
      }
      isLoading := false;
      thrown := false;
    }

    /** `handleAuth` with the log naming the account that signs in, and the attempted
        address on a failure: a match signs in and opens the dashboard, anything else
        leaves `view`, `user` and `company` as they were; one entry is logged either way. */
    method HandleAuth(email: string, pass: string, stamp: Stamp)
      requires Valid()
      modifies this
      ensures Valid()
      ensures inventory == old(inventory) && isAddingProduct == old(isAddingProduct)
      ensures newProduct == old(newProduct) && searchTerm == old(searchTerm) && !isLoading
      ensures var found := FindUser(MockUsers, email, pass);
              match found
              case Some(u) =>
                user == found && company == Some(CompanyOf(u.companyId)) && view == DashboardView &&
                logs == [AuditEntry(u.email, LoginAction, LoginDetails, stamp)] + old(logs)
              case None =>
                user == old(user) && company == old(company) && view == old(view) &&
                logs == [AuditEntry(email, FailureAction, FailureDetails(email), stamp)] + old(logs)
    {
      isLoading := true;
      var found := FindUser(MockUsers, email, pass);
      if found.Some? {
        user := found;
        company := Some(CompanyOf(found.value.companyId));
        logs := [AuditEntry(found.value.email, LoginAction, LoginDetails, stamp)] + logs;
        view := DashboardView;
      } else {
        logs := [AuditEntry(email, FailureAction, FailureDetails(email), stamp)] + logs;
      }
      isLoading := false;
    }

    /** `handleAddProduct`: one item, stamped with the current company, is appended; the
        creation is logged, the form is closed and emptied. `id` is `Date.now()` and
        `priceUSD` the already converted price. */
    method HandleAddProduct(id: int, priceUSD: Price, stamp: Stamp)
      requires Valid() && view == DashboardView
      modifies this
      ensures Valid()
      ensures inventory == old(inventory) + [NewItem(old(newProduct), old(company).value, id, priceUSD)]
      ensures logs == [AuditEntry(old(user).value.email, "INV_CREATE", CreatedDetails(old(newProduct).sku), stamp)] + old(logs)
      ensures !isAddingProduct && newProduct == EmptyForm
      ensures view == old(view) && user == old(user) && company == old(company)
      ensures isLoading == old(isLoading) && searchTerm == old(searchTerm)
    {
      var product := NewItem(newProduct, company.value, id, priceUSD);
      inventory := inventory + [product];
      AddAuditLog("INV_CREATE", CreatedDetails(product.sku), stamp);
      isAddingProduct := false;
      newProduct := EmptyForm;
    }

    /** The delete button of a row: every item with that id goes, the rest stay in order,
        and the purge is logged. */
    method DeleteItem(item: Item, stamp: Stamp)
      requires Valid() && view == DashboardView
      modifies this
      ensures Valid()
      ensures inventory == WithoutId(old(inventory), item.id)
      ensures logs == [AuditEntry(old(user).value.email, "INV_DELETE", PurgedDetails(item.sku), stamp)] + old(logs)
      ensures view == old(view) && user == old(user) && company == old(company) && isLoading == old(isLoading)
      ensures isAddingProduct == old(isAddingProduct) && newProduct == old(newProduct) && searchTerm == old(searchTerm)
    {
      inventory := WithoutId(inventory, item.id);
      AddAuditLog("INV_DELETE", PurgedDetails(item.sku), stamp);
    }

    /** The search box. */
    method SetSearchTerm(term: string)
      modifies this
      ensures Valid() <==> old(Valid())
      ensures searchTerm == term
      ensures view == old(view) && user == old(user) && company == old(company) && isLoading == old(isLoading)
      ensures logs == old(logs) && inventory == old(inventory)
      ensures isAddingProduct == old(isAddingProduct) && newProduct == old(newProduct)
    {
      searchTerm := term;
    }

    /** "Terminate session": only the view goes back to the login form; `user` and
        `company` are kept. */
    method Logout()
      modifies this
      ensures Valid()
      ensures view == LoginView
      ensures user == old(user) && company == old(company) && isLoading == old(isLoading)
      ensures logs == old(logs) && inventory == old(inventory)
      ensures isAddingProduct == old(isAddingProduct) && newProduct == old(newProduct) && searchTerm == old(searchTerm)
    {
      view := LoginView;
    }
  }

  /** Sign-in succeeds for exactly the two mock accounts with their password, and
      the company it sets is always one of the mock companies. */
  lemma LoginCredentials(email: string, pass: string)
    ensures FindUser(MockUsers, email, pass).Some? <==>
              (email == "owner@pharminto.com" || email == "admin@biopharma.com") && pass == "password123"
    ensures email == "owner@pharminto.com" && pass == "password123" ==>
              FindUser(MockUsers, email, pass) == Some(MockUsers[0]) &&
              CompanyOf(MockUsers[0].companyId) == Company("COMP-001", Some(MockCompanies["COMP-001"]))
    ensures email == "admin@biopharma.com" && pass == "password123" ==>
              FindUser(MockUsers, email, pass) == Some(MockUsers[1]) &&
              CompanyOf(MockUsers[1].companyId) == Company("COMP-002", Some(MockCompanies["COMP-002"]))
  {
    assert MockUsers[0].email == "owner@pharminto.com" && MockUsers[1].email == "admin@biopharma.com";
  }

  /** A company sees exactly its own items, in inventory order and with their
      multiplicity; without a company nothing is shown. */
  lemma CompanyItemsExact(items: seq<Item>, company: Option<Company>, x: Item)
    ensures x in CompanyItems(items, company) <==> x in items && company.Some? && x.companyId == company.value.id
    ensures multiset(CompanyItems(items, company))[x] ==
              if company.Some? && x.companyId == company.value.id then multiset(items)[x] else 0
    ensures company.None? ==> CompanyItems(items, company) == []
  {
    FilterMembership(items, InCompany(company), x);
    FilterCount(items, InCompany(company), x);
    if company.None? && CompanyItems(items, company) != [] {
      var y := CompanyItems(items, company)[0];
      FilterMembership(items, InCompany(company), y);
    }
  }

  /** Two different companies never see a common item. */
  lemma CompanyViewsDisjoint(items: seq<Item>, a: Company, b: Company)
    requires a.id != b.id
    ensures forall x :: x in CompanyItems(items, Some(a)) ==> x !in CompanyItems(items, Some(b))
  {
    forall x | x in CompanyItems(items, Some(a)) ensures x !in CompanyItems(items, Some(b)) {
      CompanyItemsExact(items, Some(a), x);
      CompanyItemsExact(items, Some(b), x);
    }
  }

  /** Adding a product puts it at the end of the adding company's view and leaves every
      other company's view unchanged. */
  lemma AddExtendsCompanyView(items: seq<Item>, form: Form, company: Company, id: int, priceUSD: Price, other: Company)
    ensures var it := NewItem(form, company, id, priceUSD);
            it.companyId == company.id &&
            CompanyItems(items + [it], Some(company)) == CompanyItems(items, Some(company)) + [it] &&
            (other.id != company.id ==> CompanyItems(items + [it], Some(other)) == CompanyItems(items, Some(other)))
  {
    var it := NewItem(form, company, id, priceUSD);
    FilterAppend(items, [it], InCompany(Some(company)));
    FilterAppend(items, [it], InCompany(Some(other)));
    assert Filter([it], InCompany(Some(company))) == [it];
    assert other.id != company.id ==> Filter([it], InCompany(Some(other))) == [];
  }

  /** The stock of a new item is the number typed. */
  lemma StockOfDecimal(n: nat)
    ensures StockOf(Decimal(n)) == n
  {
    ParseDecimal(n, []);
    assert Decimal(n) + [] == Decimal(n);
  }

  /** The number field accepts exponent notation, but `parseInt` stops at the `e`:
      "1e3" (a thousand units) is stored as 1. */
  lemma StockOfExponentTruncated()
    ensures StockOf("1e3") == 1
  {
    ParseDecimal(1, "e3");
    assert Decimal(1) + "e3" == "1e3";
  }

  /** A typed negative number keeps its sign. */
  lemma StockOfNegative(n: nat)
    ensures StockOf("-" + Decimal(n)) == -(n as int)
  {
    ParseNegativeDecimal(n, []);
    assert "-" + Decimal(n) + [] == "-" + Decimal(n);
  }

  /** An empty stock field gives 0 (`parseInt` of the empty text is `NaN`). */
  lemma StockOfEmpty()
    ensures StockOf("") == 0
  {
    assert TrimStart("") == "";
    assert ParseInt("") == None;
  }

  /** Deleting removes exactly the items with that id and keeps the others in order,
      with their multiplicity. */
  lemma DeleteExact(items: seq<Item>, id: int, x: Item)
    ensures x in WithoutId(items, id) <==> x in items && x.id != id
    ensures multiset(WithoutId(items, id))[x] == if x.id != id then multiset(items)[x] else 0
  {
    FilterMembership(items, NotId(id), x);
    FilterCount(items, NotId(id), x);
  }

  /** Deleting from the whole inventory changes a company's view by removing that id
      from it and nothing else; a company with no item of that id sees no change. */
  lemma DeleteWithinCompanyView(items: seq<Item>, id: int, company: Option<Company>)
    ensures CompanyItems(WithoutId(items, id), company) == WithoutId(CompanyItems(items, company), id)
    ensures (forall i :: 0 <= i < |items| && InCompany(company)(items[i]) ==> items[i].id != id) ==>
              CompanyItems(WithoutId(items, id), company) == CompanyItems(items, company)
  {
    var p, q := NotId(id), InCompany(company);
    FilterCommute(items, p, q);
    if forall i :: 0 <= i < |items| && q(items[i]) ==> items[i].id != id {
      var c := CompanyItems(items, company);
      forall i | 0 <= i < |c| ensures p(c[i]) {
        FilterMembership(items, q, c[i]);
        var k :| 0 <= k < |items| && items[k] == c[i];
      }
      FilterKeepsAll(c, p);
    }
  }

  /** The search shows a row exactly when it is in the company view and its name
      contains the term, letter case aside; so it never shows another company's item. */
  lemma SearchMembership(items: seq<Item>, company: Option<Company>, term: string, x: Item)
    ensures x in SearchRows(CompanyItems(items, company), term) <==>
              x in items && company.Some? && x.companyId == company.value.id &&
              Contains(ToLower(x.name), ToLower(term))
  {
    FilterMembership(CompanyItems(items, company), NameMatches(term), x);
    CompanyItemsExact(items, company, x);
  }

  /** The table rows are one filter over the whole inventory by both tests. */
  lemma VisibleRowsOneFilter(items: seq<Item>, company: Option<Company>, term: string)
    ensures SearchRows(CompanyItems(items, company), term) ==
              Filter(items, Both(InCompany(company), NameMatches(term)))
  {
    FilterOfFilter(items, InCompany(company), NameMatches(term));
  }

  /** An empty search term shows every row of the company view. */
  lemma EmptySearchShowsAll(rows: seq<Item>)
    ensures SearchRows(rows, "") == rows
  {
    forall i | 0 <= i < |rows| ensures NameMatches("")(rows[i]) {
      assert ToLower("") == "";
      ContainsEmpty(ToLower(rows[i].name));
    }
    FilterKeepsAll(rows, NameMatches(""));
  }

  /** The search does not depend on the letter case of the term. */
  lemma SearchIgnoresTermCase(rows: seq<Item>, term: string)
    ensures SearchRows(rows, ToLower(term)) == SearchRows(rows, term)
  {
    ToLowerIdempotent(term);
    FilterExtensional(rows, NameMatches(ToLower(term)), NameMatches(term));
  }

  /** The seeded inventory: HealthCorp India sees its two items, BioPharma Global its one. */
  lemma InitialCompanyViews()
    ensures CompanyItems(InitialInventory, Some(CompanyOf("COMP-001"))) == InitialInventory[..2]
    ensures CompanyItems(InitialInventory, Some(CompanyOf("COMP-002"))) == [InitialInventory[2]]
  {
    var a, b := Some(CompanyOf("COMP-001")), Some(CompanyOf("COMP-002"));
    assert InitialInventory == [InitialInventory[0]] + [InitialInventory[1]] + [InitialInventory[2]];
    FilterAppend([InitialInventory[0]] + [InitialInventory[1]], [InitialInventory[2]], InCompany(a));
    FilterAppend([InitialInventory[0]], [InitialInventory[1]], InCompany(a));
    FilterAppend([InitialInventory[0]] + [InitialInventory[1]], [InitialInventory[2]], InCompany(b));
    FilterAppend([InitialInventory[0]], [InitialInventory[1]], InCompany(b));
  }

  /** As written, the first sign-in of a session with valid credentials throws: the
      user and company are set, but the dashboard does not open, the loading flag
      stays on and nothing is logged. */
  method FirstLoginAsWritten(stamp: Stamp) returns (thrown: bool, v: Vault)
    ensures thrown && v.view == LoginView && v.isLoading && v.logs == []
    ensures v.user == Some(MockUsers[0])
  {
    LoginCredentials("owner@pharminto.com", "password123");
    v := new Vault();
    thrown := v.HandleAuthAsWritten("owner@pharminto.com", "password123", stamp);
  }

  /** As written, after the first user signs out and the second signs in, the second
      user's login is logged under the first user's address. */
  method ReloginAsWritten(stamp: Stamp) returns (v: Vault)
    ensures v.user == Some(MockUsers[1]) && v.view == DashboardView
    ensures v.logs != [] && v.logs[0].action == LoginAction && v.logs[0].user == "owner@pharminto.com"
  {
    LoginCredentials("owner@pharminto.com", "password123");
    LoginCredentials("admin@biopharma.com", "password123");
    v := new Vault();
    var thrown := v.HandleAuthAsWritten("owner@pharminto.com", "password123", stamp);
    thrown := v.HandleAuthAsWritten("owner@pharminto.com", "password123", stamp);
    v.Logout();
    thrown := v.HandleAuthAsWritten("admin@biopharma.com", "password123", stamp);
  }

  /** With the log naming the signing-in account, the first sign-in opens the dashboard
      and logs exactly that login. */
  method FirstLoginCorrected(stamp: Stamp) returns (v: Vault)
    ensures v.view == DashboardView && !v.isLoading && v.user == Some(MockUsers[0])
    ensures v.company == Some(Company("COMP-001", Some(MockCompanies["COMP-001"])))
    ensures v.logs == [AuditEntry("owner@pharminto.com", LoginAction, LoginDetails, stamp)]
  {
    LoginCredentials("owner@pharminto.com", "password123");
    v := new Vault();
    v.HandleAuth("owner@pharminto.com", "password123", stamp);
  }

  /** With the correction, a second user's login is logged under their own address. */
  method ReloginCorrected(stamp: Stamp) returns (v: Vault)
    ensures v.user == Some(MockUsers[1]) && v.view == DashboardView
    ensures |v.logs| == 2 && v.logs[0] == AuditEntry("admin@biopharma.com", LoginAction, LoginDetails, stamp)
    ensures v.logs[1] == AuditEntry("owner@pharminto.com", LoginAction, LoginDetails, stamp)
  {
    LoginCredentials("owner@pharminto.com", "password123");
    LoginCredentials("admin@biopharma.com", "password123");
    v := new Vault();
    v.HandleAuth("owner@pharminto.com", "password123", stamp);
    v.Logout();
    v.HandleAuth("admin@biopharma.com", "password123", stamp);
  }
}
