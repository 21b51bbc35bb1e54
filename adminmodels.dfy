/**
  * The admin system's tables: services (with category, price and
  * processing time), products under a service, and the admin settings
  * keyed by `setting_key`. `DatabaseManager` creates and seeds them;
  * `ServiceManager`, `ProductManager` and `AdminSettingsManager` read and
  * write them. A call that makes SQLite raise (a NULL in a NOT NULL
  * column, a row index past the end) is `Raised`, and then it changes
  * nothing.
  */
module AdminModels {
  import opened Text
  import Listing

  datatype Outcome<T> = Raised(error: string) | Returned(value: T)

  const IntegrityError := "IntegrityError"
  const IndexError := "IndexError"

  /**
    * A services row. Every column but `name` (NOT NULL) may hold NULL,
    * which is None here.
    */
  datatype AdminService = AdminService(
    name: string, description: Option<string>, category: Option<string>, basePrice: Option<real>,
    priceRange: Option<string>, isActive: Option<bool>, imageUrl: Option<string>, processingTime: Option<string>)

  /** A products row; `name` and `price` are NOT NULL, `specifications` is always JSON text. */
  datatype Product = Product(
    serviceId: Option<int>, name: string, description: Option<string>, price: real, unit: Option<string>,
    minQuantity: Option<int>, isActive: Option<bool>, specifications: string)

  /** An admin_settings row: `setting_value` and `description` may both be NULL. */
  datatype Setting = Setting(value: Option<string>, description: Option<string>)

  /**
    * One key of a dict a manager receives: missing, or present with a
    * value that may itself be None (as `request.form.get` gives for a
    * form field that was not sent).
    */
  datatype Field<T> = Missing | Present(value: Option<T>)

  /** `d.get(key, default)`: the default only when the key is missing; a present None stays None. */
  function Lookup<T>(f: Field<T>, default: Option<T>): (r: Option<T>)
    ensures f.Missing? ==> r == default
    ensures f.Present? ==> r == f.value
  {
    if f.Present? then f.value else default
  }

  /** A service as `create_service` and `update_service` receive it. */
  datatype ServiceData = ServiceData(
    name: Field<string>, description: Field<string>, category: Field<string>, basePrice: Field<real>,
    priceRange: Field<string>, isActive: Field<bool>, imageUrl: Field<string>, processingTime: Field<string>)

  /**
    * A product as `create_product` and `update_product` receive it;
    * `specifications` is the JSON text of the specifications value.
    */
  datatype ProductData = ProductData(
    serviceId: Field<int>, name: Field<string>, description: Field<string>, price: Field<real>,
    unit: Field<string>, minQuantity: Field<int>, isActive: Field<bool>, specifications: Field<string>)

  /** `value or default` for a column that may be NULL. */
  function OrElse<T>(o: Option<T>, default: T): (r: T)
    ensures o.Some? ==> r == o.value
    ensures o.None? ==> r == default
  {
    if o.Some? then o.value else default
  }

  const DefaultCategory := "general"
  const DefaultProcessingTime := "1-3 business days"
  const DefaultUnit := "each"
  /** `json.dumps({})`. */
  const EmptySpecifications := "{}"
  /** `json.dumps(None)`. */
  const NullSpecifications := "null"

  /** The JSON text `json.dumps(d.get('specifications', {}))` writes. */
  function SpecificationsOf(f: Field<string>): (r: string)
    ensures f.Missing? ==> r == EmptySpecifications
    ensures f == Present(None) ==> r == NullSpecifications
    ensures f.Present? && f.value.Some? ==> r == f.value.value
  {
    match f
    case Missing => EmptySpecifications
    case Present(None) => NullSpecifications
    case Present(Some(text)) => text
  }

  /**
    * The row `create_service` and `update_service` write, or None when the
    * name is missing or None (NOT NULL). A missing field takes its
    * default; a field present as None is written as NULL.
    */
  function ServiceRowOf(data: ServiceData): (r: Option<AdminService>)
    ensures r.None? <==> Lookup(data.name, None).None?
    ensures r.Some? ==> r.value.name == Lookup(data.name, None).value
    ensures r.Some? ==> r.value.description == Lookup(data.description, Some(""))
    ensures r.Some? ==> r.value.category == Lookup(data.category, Some(DefaultCategory))
    ensures r.Some? ==> r.value.basePrice == Lookup(data.basePrice, Some(0.0))
    ensures r.Some? ==> r.value.priceRange == Lookup(data.priceRange, Some(""))
    ensures r.Some? ==> r.value.isActive == Lookup(data.isActive, Some(true))
    ensures r.Some? ==> r.value.imageUrl == Lookup(data.imageUrl, Some(""))
    ensures r.Some? ==> r.value.processingTime == Lookup(data.processingTime, Some(DefaultProcessingTime))
  {
    match data.name
    case Present(Some(name)) =>
      Some(AdminService(
        name, Lookup(data.description, Some("")), Lookup(data.category, Some(DefaultCategory)),
        Lookup(data.basePrice, Some(0.0)), Lookup(data.priceRange, Some("")), Lookup(data.isActive, Some(true)),
        Lookup(data.imageUrl, Some("")), Lookup(data.processingTime, Some(DefaultProcessingTime))))
    case _ => None
  }

  /**
    * The product row written for `data` under `serviceId`, or None when the
    * name or the price is missing or None (NOT NULL).
    */
  function ProductRowOf(serviceId: Option<int>, data: ProductData): (r: Option<Product>)
    ensures r.None? <==> Lookup(data.name, None).None? || Lookup(data.price, None).None?
    ensures r.Some? ==> r.value.serviceId == serviceId
    ensures r.Some? ==> r.value.name == Lookup(data.name, None).value
    ensures r.Some? ==> r.value.description == Lookup(data.description, Some(""))
    ensures r.Some? ==> r.value.price == Lookup(data.price, None).value
    ensures r.Some? ==> r.value.unit == Lookup(data.unit, Some(DefaultUnit))
    ensures r.Some? ==> r.value.minQuantity == Lookup(data.minQuantity, Some(1))
    ensures r.Some? ==> r.value.isActive == Lookup(data.isActive, Some(true))
    ensures r.Some? ==> r.value.specifications == SpecificationsOf(data.specifications)
  {
    match (data.name, data.price)
    case (Present(Some(name)), Present(Some(price))) =>
      Some(Product(
        serviceId, name, Lookup(data.description, Some("")), price, Lookup(data.unit, Some(DefaultUnit)),
        Lookup(data.minQuantity, Some(1)), Lookup(data.isActive, Some(true)), SpecificationsOf(data.specifications)))
    case _ => None
  }

  // ---------------------------------------------------------------------
  // Seed data

  function DefaultServices(): (s: seq<AdminService>)
    ensures |s| == 7
  {
    [ AdminService("Banners", Some("Custom banners for all occasions"), Some("marketing"), Some(25.0), Some("$25-$200"), Some(true), None, Some("2-3 business days")),
      AdminService("Flyers", Some("Professional flyers and leaflets"), Some("marketing"), Some(15.0), Some("$15-$100"), Some(true), None, Some("1-2 business days")),
      AdminService("T-Shirts", Some("Custom printed t-shirts"), Some("apparel"), Some(20.0), Some("$20-$50"), Some(true), None, Some("3-5 business days")),
      AdminService("Mugs", Some("Personalized mugs and drinkware"), Some("promotional"), Some(12.0), Some("$12-$30"), Some(true), None, Some("2-4 business days")),
      AdminService("Hats", Some("Custom embroidered hats and caps"), Some("apparel"), Some(18.0), Some("$18-$45"), Some(true), None, Some("3-5 business days")),
      AdminService("Paper Bags", Some("Branded paper bags"), Some("packaging"), Some(8.0), Some("$8-$25"), Some(true), None, Some("2-3 business days")),
      AdminService("Packaging", Some("Custom packaging solutions"), Some("packaging"), Some(30.0), Some("$30-$500"), Some(true), None, Some("3-7 business days")) ]
  }

  const WelcomeMessage := "Welcome to KalNetworks – Your trusted printing solutions partner. Place an order, schedule a talk, or message me directly."

  function DefaultSettings(): (s: seq<(string, string, string)>)
    ensures |s| == 6
  {
    [ ("welcome_message", WelcomeMessage, "Bot welcome message"),
      ("business_hours", "Monday-Friday: 9AM-6PM, Saturday: 10AM-4PM", "Business operating hours"),
      ("min_order_value", "10.0", "Minimum order value in USD"),
      ("max_order_value", "5000.0", "Maximum order value in USD"),
      ("auto_quote_enabled", "true", "Enable automatic quote generation"),
      ("admin_notifications", "true", "Enable admin notifications for new orders") ]
  }

  /** `INSERT OR IGNORE` of each entry in turn: an entry whose key exists is skipped. */
  function InsertOrIgnore(m: map<string, Setting>, entries: seq<(string, string, string)>): map<string, Setting>
    decreases |entries|
  {
    if entries == [] then m
    else
      var (key, value, description) := entries[0];
      InsertOrIgnore(if key in m then m else m[key := Setting(Some(value), Some(description))], entries[1..])
  }

  /** Existing keys keep their value and description, and every entry's key ends up present. */
  lemma {:induction false} InsertOrIgnoreKeeps(m: map<string, Setting>, entries: seq<(string, string, string)>)
    ensures forall k :: k in m ==> k in InsertOrIgnore(m, entries) && InsertOrIgnore(m, entries)[k] == m[k]
    ensures forall i :: 0 <= i < |entries| ==> entries[i].0 in InsertOrIgnore(m, entries)
    ensures forall k :: k in InsertOrIgnore(m, entries) ==> k in m || exists i :: 0 <= i < |entries| && entries[i].0 == k
    decreases |entries|
  {
    if entries != [] {
      var (key, value, description) := entries[0];
      var m' := if key in m then m else m[key := Setting(Some(value), Some(description))];
      InsertOrIgnoreKeeps(m', entries[1..]);
      assert InsertOrIgnore(m, entries) == InsertOrIgnore(m', entries[1..]);
      forall k | k in InsertOrIgnore(m, entries) && k !in m
        ensures exists i :: 0 <= i < |entries| && entries[i].0 == k
      {
        if k != key {
          assert k !in m';
          var j :| 0 <= j < |entries[1..]| && entries[1..][j].0 == k;
          assert entries[j + 1].0 == k;
        } else {
          assert entries[0].0 == k;
        }
      }
    }
  }

  /** Entries whose keys are all present change nothing. */
  lemma {:induction false} InsertOrIgnorePresent(m: map<string, Setting>, entries: seq<(string, string, string)>)
    requires forall i :: 0 <= i < |entries| ==> entries[i].0 in m
    ensures InsertOrIgnore(m, entries) == m
    decreases |entries|
  {
    if entries != [] {
      InsertOrIgnorePresent(m, entries[1..]);
    }
  }

  /** `after` is `before` with the default settings seeded. */
  ghost predicate SeededSettings(before: map<string, Setting>, after: map<string, Setting>) {
    after == InsertOrIgnore(before, DefaultSettings())
  }

  /** Seeding the settings a second time changes nothing. */
  lemma SeedSettingsIdempotent(m: map<string, Setting>)
    ensures InsertOrIgnore(InsertOrIgnore(m, DefaultSettings()), DefaultSettings()) == InsertOrIgnore(m, DefaultSettings())
  {
    InsertOrIgnoreKeeps(m, DefaultSettings());
    InsertOrIgnorePresent(InsertOrIgnore(m, DefaultSettings()), DefaultSettings());
  }

  /** The services table holds exactly the seven defaults, under the ids `from` to `from + 6`. */
  ghost predicate HoldsDefaults(services: map<int, AdminService>, from: int) {
    && (forall id :: id in services <==> from <= id < from + 7)
    && forall i :: 0 <= i < 7 ==> services[from + i] == DefaultServices()[i]
  }

  /**
    * `after` is `before` seeded: the defaults if `before` is empty,
    * otherwise `before` unchanged.
    */
  ghost predicate SeededServices(before: map<int, AdminService>, beforeNext: int, after: map<int, AdminService>, afterNext: int) {
    if before == map[] then afterNext == beforeNext + 7 && HoldsDefaults(after, beforeNext)
    else after == before && afterNext == beforeNext
  }

  // ---------------------------------------------------------------------

  class AdminDatabase {
    var services: map<int, AdminService>
    var nextServiceId: int
    var products: map<int, Product>
    var nextProductId: int
    var settings: map<string, Setting>

    ghost predicate Valid()
      reads this
    {
      Listing.IdsBelow(services, nextServiceId) && Listing.IdsBelow(products, nextProductId)
    }

    /** A database with the given tables, as `CREATE TABLE IF NOT EXISTS` finds them, then seeded. */
    constructor(services0: map<int, AdminService>, nextService0: int, products0: map<int, Product>,
                nextProduct0: int, settings0: map<string, Setting>)
      requires Listing.IdsBelow(services0, nextService0) && Listing.IdsBelow(products0, nextProduct0)
      ensures Valid()
      ensures products == products0 && nextProductId == nextProduct0
      ensures SeededSettings(settings0, settings)
      ensures SeededServices(services0, nextService0, services, nextServiceId)
    {
      services := services0;
      nextServiceId := nextService0;
      products := products0;
      nextProductId := nextProduct0;
      settings := settings0;
      new;
      InitAdminTables();
    }

    /** Seeds the services (only if there are none) and the default settings (only missing keys). */
    method InitAdminTables()
      requires Valid()
      modifies this
      ensures Valid()
      ensures products == old(products) && nextProductId == old(nextProductId)
      ensures SeededSettings(old(settings), settings)
      ensures SeededServices(old(services), old(nextServiceId), services, nextServiceId)
    {
      InsertDefaultServices();
      InsertDefaultAdminSettings();
    }

    /** The seven default services are inserted only into an empty services table. */
    method InsertDefaultServices()
      requires Valid()
      modifies this`services, this`nextServiceId
      ensures Valid()
      ensures SeededServices(old(services), old(nextServiceId), services, nextServiceId)
    {
      if services == map[] {
        var defaults := DefaultServices();
        var i := 0;
        while i < |defaults|
          invariant 0 <= i <= 7
          invariant nextServiceId == old(nextServiceId) + i
          invariant forall id :: id in services <==> old(nextServiceId) <= id < nextServiceId
          invariant forall j :: 0 <= j < i ==> services[old(nextServiceId) + j] == defaults[j]
        {
          services := services[nextServiceId := defaults[i]];
          nextServiceId := nextServiceId + 1;
          i := i + 1;
        }
      }
    }

    /** Each default setting is inserted unless its key exists (INSERT OR IGNORE). */
    method InsertDefaultAdminSettings()
      modifies this`settings
      ensures SeededSettings(old(settings), settings)
    {
      var defaults := DefaultSettings();
      var i := 0;
      while i < |defaults|
        invariant 0 <= i <= |defaults|
        invariant InsertOrIgnore(settings, defaults[i..]) == InsertOrIgnore(old(settings), defaults)
      {
        var (key, value, description) := defaults[i];
        assert defaults[i..][0] == (key, value, description) && defaults[i..][1..] == defaults[i + 1..];
        if key !in settings {
          settings := settings[key := Setting(Some(value), Some(description))];
        }
        i := i + 1;
      }
    }
  }

  // ---------------------------------------------------------------------

  class ServiceManager {
    const db: AdminDatabase

    constructor(db: AdminDatabase)
      ensures this.db == db
    {
      this.db := db;
    }

    /** The ids of the services (only the active ones when asked), in name order. */
    method GetAllServices(activeOnly: bool) returns (ids: seq<int>)
      requires db.Valid()
      ensures Listing.Selects(ids, db.services, (s: AdminService) => !activeOnly || s.isActive == Some(true))
      ensures Listing.Distinct(ids)
      ensures Listing.SortedByName(ids, db.services, (s: AdminService) => s.name)
    {
      ids := Listing.SortByName(db.services, db.nextServiceId, (s: AdminService) => !activeOnly || s.isActive == Some(true), (s: AdminService) => s.name);
    }

    function GetServiceById(id: int): (r: Option<AdminService>)
      reads db
      ensures r.None? <==> id !in db.services
      ensures r.Some? ==> db.services[id] == r.value
    {
      if id in db.services then Some(db.services[id]) else None
    }

    /** Inserts the service with the defaults for missing fields and returns its id. */
    method CreateService(data: ServiceData) returns (r: Outcome<int>)
      requires db.Valid()
      modifies db
      ensures db.Valid()
      ensures db.products == old(db.products) && db.nextProductId == old(db.nextProductId) && db.settings == old(db.settings)
      ensures r.Raised? <==> Lookup(data.name, None).None?
      ensures r.Raised? ==> r.error == IntegrityError && db.services == old(db.services) && db.nextServiceId == old(db.nextServiceId)
      ensures r.Returned? ==> r.value == old(db.nextServiceId) && db.nextServiceId == old(db.nextServiceId) + 1
      ensures r.Returned? ==> db.services == old(db.services)[r.value := ServiceRowOf(data).value]
    {
      var row := ServiceRowOf(data);
      if row.None? {
        return Raised(IntegrityError);
      }
      var id := db.nextServiceId;
      db.services := db.services[id := row.value];
      db.nextServiceId := id + 1;
      r := Returned(id);
    }

    /**
      * Overwrites every field of the service, missing ones with their
      * defaults; the result is true exactly when the service exists. A
      * missing name raises only when there is a row to write it to.
      */
    method UpdateService(id: int, data: ServiceData) returns (r: Outcome<bool>)
      requires db.Valid()
      modifies db
      ensures db.Valid()
      ensures db.products == old(db.products) && db.nextProductId == old(db.nextProductId) && db.settings == old(db.settings)
      ensures db.nextServiceId == old(db.nextServiceId)
      ensures r.Raised? <==> id in old(db.services) && Lookup(data.name, None).None?
      ensures r.Raised? ==> r.error == IntegrityError
      ensures r.Returned? ==> (r.value <==> id in old(db.services))
      ensures r.Returned? && r.value ==> db.services == old(db.services)[id := ServiceRowOf(data).value]
      ensures !(r.Returned? && r.value) ==> db.services == old(db.services)
    {
      if id !in db.services {
        return Returned(false);
      }
      var row := ServiceRowOf(data);
      if row.None? {
        return Raised(IntegrityError);
      }
      db.services := db.services[id := row.value];
      r := Returned(true);
    }

    /** Deletes the service's products, then the service; true exactly when the service row existed. */
    method DeleteService(id: int) returns (success: bool)
      requires db.Valid()
      modifies db
      ensures db.Valid()
      ensures db.products == map k | k in old(db.products) && old(db.products)[k].serviceId != Some(id) :: old(db.products)[k]
      ensures db.services == old(db.services) - {id}
      ensures success <==> id in old(db.services)
      ensures db.nextServiceId == old(db.nextServiceId) && db.nextProductId == old(db.nextProductId) && db.settings == old(db.settings)
    {
      db.products := map k | k in db.products && db.products[k].serviceId != Some(id) :: db.products[k];
      success := id in db.services;
      db.services := db.services - {id};
    }
  }

  // ---------------------------------------------------------------------

  class ProductManager {
    const db: AdminDatabase

    constructor(db: AdminDatabase)
      ensures this.db == db
    {
      this.db := db;
    }

    /**
      * The product listing reads created_at and updated_at from positions
      * 10 and 11 of an eleven-column row, so it raises IndexError as soon
      * as one product matches; only an empty listing is returned.
      */
    method GetProductsByService(serviceId: int, activeOnly: bool) returns (r: Outcome<seq<int>>)
      requires db.Valid()
      ensures r.Returned? <==> forall k :: k in db.products ==> !(db.products[k].serviceId == Some(serviceId) && (!activeOnly || db.products[k].isActive == Some(true)))
      ensures r.Returned? ==> r.value == []
      ensures r.Raised? ==> r.error == IndexError
    {
      var first := Listing.FirstWhere(db.products, db.nextProductId,
        (p: Product) => p.serviceId == Some(serviceId) && (!activeOnly || p.isActive == Some(true)));
      if first.Some? {
        return Raised(IndexError);
      }
      return Returned([]);
    }

    /** Inserts the product and returns its id. */
    method CreateProduct(data: ProductData) returns (r: Outcome<int>)
      requires db.Valid()
      modifies db
      ensures db.Valid()
      ensures db.services == old(db.services) && db.nextServiceId == old(db.nextServiceId) && db.settings == old(db.settings)
      ensures r.Raised? <==> Lookup(data.name, None).None? || Lookup(data.price, None).None?
      ensures r.Raised? ==> r.error == IntegrityError && db.products == old(db.products) && db.nextProductId == old(db.nextProductId)
      ensures r.Returned? ==> r.value == old(db.nextProductId) && db.nextProductId == old(db.nextProductId) + 1
      ensures r.Returned? ==> db.products == old(db.products)[r.value := ProductRowOf(Lookup(data.serviceId, None), data).value]
    {
      var row := ProductRowOf(Lookup(data.serviceId, None), data);
      if row.None? {
        return Raised(IntegrityError);
      }
      var id := db.nextProductId;
      db.products := db.products[id := row.value];
      db.nextProductId := id + 1;
      r := Returned(id);
    }

    /** Overwrites every field but the service the product belongs to; true exactly when it exists. */
    method UpdateProduct(id: int, data: ProductData) returns (r: Outcome<bool>)
      requires db.Valid()
      modifies db
      ensures db.Valid()
      ensures db.services == old(db.services) && db.nextServiceId == old(db.nextServiceId) && db.settings == old(db.settings)
      ensures db.nextProductId == old(db.nextProductId)
      ensures r.Raised? <==> id in old(db.products) && (Lookup(data.name, None).None? || Lookup(data.price, None).None?)
      ensures r.Raised? ==> r.error == IntegrityError
      ensures r.Returned? ==> (r.value <==> id in old(db.products))
      ensures r.Returned? && r.value ==> db.products == old(db.products)[id := ProductRowOf(old(db.products)[id].serviceId, data).value]
      ensures r.Returned? && r.value ==> db.products[id].serviceId == old(db.products)[id].serviceId
      ensures !(r.Returned? && r.value) ==> db.products == old(db.products)
    {
      if id !in db.products {
        return Returned(false);
      }
      var row := ProductRowOf(db.products[id].serviceId, data);
      if row.None? {
        return Raised(IntegrityError);
      }
      db.products := db.products[id := row.value];
      r := Returned(true);
    }

    method DeleteProduct(id: int) returns (success: bool)
      requires db.Valid()
      modifies db
      ensures db.Valid()
      ensures db.products == old(db.products) - {id}
      ensures success <==> id in old(db.products)
      ensures db.services == old(db.services) && db.nextServiceId == old(db.nextServiceId)
      ensures db.nextProductId == old(db.nextProductId) && db.settings == old(db.settings)
    {
      success := id in db.products;
      db.products := db.products - {id};
    }
  }

  // ---------------------------------------------------------------------

  /** What `get_all_settings` reports for one key: the value (None for NULL) and a description that is never None. */
  datatype SettingView = SettingView(value: Option<string>, description: string)

  class AdminSettingsManager {
    const db: AdminDatabase

    constructor(db: AdminDatabase)
      ensures this.db == db
    {
      this.db := db;
    }

    /**
      * The stored value, or `default` when the key is absent. A row whose
      * value is NULL gives None, not the default.
      */
    function GetSetting(key: string, default: Option<string>): (r: Option<string>)
      reads db
      ensures key in db.settings ==> r == db.settings[key].value
      ensures key !in db.settings ==> r == default
    {
      if key in db.settings then db.settings[key].value else default
    }

    /** INSERT OR REPLACE: afterwards the key holds exactly this value and description; always true. */
    method SetSetting(key: string, value: Option<string>, description: Option<string>) returns (success: bool)
      requires db.Valid()
      modifies db
      ensures db.Valid()
      ensures success
      ensures db.settings == old(db.settings)[key := Setting(value, description)]
      ensures forall d :: GetSetting(key, d) == value
      ensures db.services == old(db.services) && db.nextServiceId == old(db.nextServiceId)
      ensures db.products == old(db.products) && db.nextProductId == old(db.nextProductId)
    {
      db.settings := db.settings[key := Setting(value, description)];
      success := true;
    }

    /** Every setting by key; a missing or empty description reads as "". */
    function GetAllSettings(): (r: map<string, SettingView>)
      reads db
      ensures r.Keys == db.settings.Keys
      ensures forall k :: k in r ==> r[k].value == db.settings[k].value
      ensures forall k :: k in r ==> r[k].description == OrElse(db.settings[k].description, "")
    {
      map k | k in db.settings :: SettingView(db.settings[k].value, OrElse(db.settings[k].description, ""))
    }
  }
}
