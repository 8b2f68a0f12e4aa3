/** The list and by-id handlers of main.go and the discovery document of
    `/api`. Each handler is a specification function from the dataset and
    the request (method, path, query parameters; an absent parameter is "",
    as `Query().Get` returns it) to a response, and the handlers that scan
    are also loop methods proved equal to their function. */
module Handlers {
  import opened Wrappers
  import opened GoStrings
  import opened GoStrconv
  import opened Catalog
  import opened Query

  const Get := "GET"
  const ModelsPath := "/api/models"
  const ManufacturersPath := "/api/manufacturers"
  const CategoriesPath := "/api/categories"
  const ModelsPrefix := "/api/models/"
  const ManufacturersPrefix := "/api/manufacturers/"
  const CategoriesPrefix := "/api/categories/"

  // ----- /api --------------------------------------------------------------

  /** apiRoot: the three list resources, each under its own name below /api. */
  function ApiRoot(): (r: map<string, string>)
    ensures r.Keys == {"models", "categories", "manufacturers"}
    ensures forall k :: k in r ==> r[k] == "/api/" + k
  {
    map["models" := ModelsPath, "categories" := CategoriesPath, "manufacturers" := ManufacturersPath]
  }

  // ----- /api/models -------------------------------------------------------

  /** A numeric query filter: ignored when absent (""), and ignored as well
      when it does not parse. */
  function IdFilter(param: string): (r: Option<int>)
    ensures r.Some? ==> Atoi(param) == r
    ensures r.None? <==> param == "" || Atoi(param).None?
  {
    if param == "" then None else Atoi(param)
  }

  function SearchCriteria(search: string): seq<Criterion>
  {
    if search != "" then [NameContains(ToLower(search))] else []
  }

  function ManufacturerCriteria(manufacturerId: string): seq<Criterion>
  {
    match IdFilter(manufacturerId)
    case Some(id) => [ManufacturerIs(id)]
    case None => []
  }

  function CategoryCriteria(categoryId: string): seq<Criterion>
  {
    match IdFilter(categoryId)
    case Some(id) => [CategoryIs(id)]
    case None => []
  }

  /** The filter stages of the model list in the order the handler applies
      them: search, then manufacturer, then category. At most one stage per
      parameter runs, and none at all when no parameter is usable. */
  function ModelCriteria(search: string, manufacturerId: string, categoryId: string): (r: seq<Criterion>)
    ensures |r| <= 3
    ensures r == [] <==> search == "" && IdFilter(manufacturerId).None? && IdFilter(categoryId).None?
    ensures search != "" ==> r[0] == NameContains(ToLower(search))
    ensures IdFilter(categoryId).Some? ==> r[|r| - 1] == CategoryIs(IdFilter(categoryId).value)
  {
    SearchCriteria(search) + ManufacturerCriteria(manufacturerId) + CategoryCriteria(categoryId)
  }

  /** What it means for a model to be listed, stated per parameter: the
      lower-cased name contains the lower-cased search text when one is
      given, and each id filter that parses is met. */
  predicate ModelMatches(search: string, manufacturerId: string, categoryId: string, m: CarModel)
  {
    (search != "" ==> Contains(ToLower(m.name), ToLower(search)))
    && (IdFilter(manufacturerId).Some? ==> m.manufacturerId == IdFilter(manufacturerId).value)
    && (IdFilter(categoryId).Some? ==> m.categoryId == IdFilter(categoryId).value)
  }

  lemma CriteriaMeaning(search: string, manufacturerId: string, categoryId: string, m: CarModel)
    ensures HoldsAll(ModelCriteria(search, manufacturerId, categoryId), m)
        <==> ModelMatches(search, manufacturerId, categoryId, m)
  {
    var s, mf, ct := SearchCriteria(search), ManufacturerCriteria(manufacturerId), CategoryCriteria(categoryId);
    HoldsAllAppend(s + mf, ct, m);
    HoldsAllAppend(s, mf, m);
    assert HoldsAll(s, m) <==> (search != "" ==> Contains(ToLower(m.name), ToLower(search))) by {
      if search != "" {
        assert s[0] == NameContains(ToLower(search));
      }
    }
    assert HoldsAll(mf, m) <==> (IdFilter(manufacturerId).Some? ==> m.manufacturerId == IdFilter(manufacturerId).value) by {
      if IdFilter(manufacturerId).Some? {
        assert mf[0] == ManufacturerIs(IdFilter(manufacturerId).value);
      }
    }
    assert HoldsAll(ct, m) <==> (IdFilter(categoryId).Some? ==> m.categoryId == IdFilter(categoryId).value) by {
      if IdFilter(categoryId).Some? {
        assert ct[0] == CategoryIs(IdFilter(categoryId).value);
      }
    }
  }

  /** handleModels: the model list narrowed by every usable filter. The list
      is exactly the one-pass filter of the dataset by ModelMatches, so it
      keeps the dataset order and holds every matching model and no other. */
  function Models(db: Data, verb: string, path: string,
                  search: string, manufacturerId: string, categoryId: string): (r: Response<seq<CarModel>>)
    ensures path != ModelsPath ==> r == NotFound
    ensures path == ModelsPath && verb != Get ==> r == MethodNotAllowed
    ensures path == ModelsPath && verb == Get ==> r.Ok?
    ensures r.Ok? ==> IsSubsequence(r.body, db.carModels)
    ensures r.Ok? ==> forall m :: m in r.body <==>
      m in db.carModels && ModelMatches(search, manufacturerId, categoryId, m)
    ensures r.Ok? ==> r.body == FilterAll(db.carModels, ModelCriteria(search, manufacturerId, categoryId))
  {
    if path != ModelsPath then NotFound
    else if verb != Get then MethodNotAllowed
    else
      var cs := ModelCriteria(search, manufacturerId, categoryId);
      NarrowIsConjunction(db.carModels, cs);
      FilterAllIsSubsequence(db.carModels, cs);
      FilterAllMembership(db.carModels, cs);
      assert forall m :: HoldsAll(cs, m) <==> ModelMatches(search, manufacturerId, categoryId, m) by {
        forall m ensures HoldsAll(cs, m) <==> ModelMatches(search, manufacturerId, categoryId, m) {
          CriteriaMeaning(search, manufacturerId, categoryId, m);
        }
      }
      Ok(Narrow(db.carModels, cs))
  }

  /** The handler, stage by stage: each usable filter rebuilds the list from
      the previous one. */
  method HandleModels(db: Data, verb: string, path: string,
                      search: string, manufacturerId: string, categoryId: string)
    returns (resp: Response<seq<CarModel>>)
    ensures resp == Models(db, verb, path, search, manufacturerId, categoryId)
  {
    if path != ModelsPath {
      return NotFound;
    }
    if verb != Get {
      return MethodNotAllowed;
    }
    var models := db.carModels;
    if search != "" {
      var s := ToLower(search);
      models := Retain(models, NameContains(s));
    }
    assert models == Narrow(db.carModels, SearchCriteria(search));
    if manufacturerId != "" {
      var id := Atoi(manufacturerId);
      if id.Some? {
        models := Retain(models, ManufacturerIs(id.value));
      }
    }
    NarrowAppend(db.carModels, SearchCriteria(search), ManufacturerCriteria(manufacturerId));
    assert models == Narrow(db.carModels, SearchCriteria(search) + ManufacturerCriteria(manufacturerId));
    if categoryId != "" {
      var id := Atoi(categoryId);
      if id.Some? {
        models := Retain(models, CategoryIs(id.value));
      }
    }
    NarrowAppend(db.carModels, SearchCriteria(search) + ManufacturerCriteria(manufacturerId),
                 CategoryCriteria(categoryId));
    return Ok(models);
  }

  /** With no usable filter (every parameter absent, or an id filter that does
      not parse) the list is the whole dataset, in order. */
  lemma {:induction false} ModelsWithoutUsableFilter(db: Data, search: string, manufacturerId: string, categoryId: string)
    requires search == ""
    requires manufacturerId == "" || Atoi(manufacturerId).None?
    requires categoryId == "" || Atoi(categoryId).None?
    ensures Models(db, Get, ModelsPath, search, manufacturerId, categoryId) == Ok(db.carModels)
  {
    assert ModelCriteria(search, manufacturerId, categoryId) == [];
  }

  /** A filter that does not parse is the same as an absent one: it never
      narrows the list and is never an error. */
  lemma {:induction false} UnparseableFiltersIgnored(db: Data, verb: string, path: string,
                                                      search: string, manufacturerId: string, categoryId: string)
    requires Atoi(manufacturerId).None? && Atoi(categoryId).None?
    ensures Models(db, verb, path, search, manufacturerId, categoryId)
         == Models(db, verb, path, search, "", "")
  {
    assert ModelCriteria(search, manufacturerId, categoryId) == ModelCriteria(search, "", "");
  }

  /** Filters combine conjunctively: a model is listed under several filters
      exactly when it is listed under each of them alone. */
  lemma ModelsIntersection(db: Data, search: string, manufacturerId: string, categoryId: string, m: CarModel)
    ensures m in Models(db, Get, ModelsPath, search, manufacturerId, categoryId).body <==>
      m in Models(db, Get, ModelsPath, search, "", "").body
      && m in Models(db, Get, ModelsPath, "", manufacturerId, "").body
      && m in Models(db, Get, ModelsPath, "", "", categoryId).body
  {
  }

  /** The search stage keeps exactly the models whose lower-cased name holds
      the lower-cased search text, in dataset order, and searching the result
      again for the same text changes nothing. */
  lemma {:induction false} SearchStage(db: Data, search: string)
    requires search != ""
    ensures Models(db, Get, ModelsPath, search, "", "").body
         == Filter(db.carModels, NameContains(ToLower(search)))
    ensures Filter(Filter(db.carModels, NameContains(ToLower(search))), NameContains(ToLower(search)))
         == Filter(db.carModels, NameContains(ToLower(search)))
  {
    var c := NameContains(ToLower(search));
    assert ModelCriteria(search, "", "") == [c];
    assert Narrow(db.carModels, [c]) == Narrow(Filter(db.carModels, c), []);
    FilterIdempotent(db.carModels, NameContains(ToLower(search)));
  }

  // ----- /api/manufacturers and /api/categories ----------------------------

  /** handleManufacturers: 404 off the exact path, 405 for any method but
      GET, otherwise the whole collection. */
  function Manufacturers(db: Data, verb: string, path: string): (r: Response<seq<Manufacturer>>)
    ensures path != ManufacturersPath ==> r == NotFound
    ensures r.Ok? <==> path == ManufacturersPath && verb == Get
    ensures r.Ok? ==> r.body == db.manufacturers
    ensures r.MethodNotAllowed? <==> path == ManufacturersPath && verb != Get
  {
    if path != ManufacturersPath then NotFound
    else if verb != Get then MethodNotAllowed
    else Ok(db.manufacturers)
  }

  /** handleCategories: 404 off the exact path, 405 for any method but GET,
      otherwise the whole collection. */
  function Categories(db: Data, verb: string, path: string): (r: Response<seq<Category>>)
    ensures path != CategoriesPath ==> r == NotFound
    ensures r.Ok? <==> path == CategoriesPath && verb == Get
    ensures r.Ok? ==> r.body == db.categories
    ensures r.MethodNotAllowed? <==> path == CategoriesPath && verb != Get
  {
    if path != CategoriesPath then NotFound
    else if verb != Get then MethodNotAllowed
    else Ok(db.categories)
  }

  /** A non-GET request to any of the three list endpoints is refused with
      405, whatever its query parameters. */
  lemma ListEndpointsRejectNonGet(db: Data, verb: string,
                                  search: string, manufacturerId: string, categoryId: string)
    requires verb != Get
    ensures Models(db, verb, ModelsPath, search, manufacturerId, categoryId) == MethodNotAllowed
    ensures Manufacturers(db, verb, ManufacturersPath) == MethodNotAllowed
    ensures Categories(db, verb, CategoriesPath) == MethodNotAllowed
  {
  }

  /** Every path the discovery document lists serves its full collection. */
  lemma ApiRootPathsServeLists(db: Data)
    ensures Models(db, Get, ApiRoot()["models"], "", "", "") == Ok(db.carModels)
    ensures Manufacturers(db, Get, ApiRoot()["manufacturers"]) == Ok(db.manufacturers)
    ensures Categories(db, Get, ApiRoot()["categories"]) == Ok(db.categories)
  {
    ModelsWithoutUsableFilter(db, "", "", "");
  }

  // ----- /api/{models,manufacturers,categories}/{id} -----------------------

  /** The shared tail of the by-id handlers: 400 when the id text does not
      parse, otherwise the first record with that id, or 404 when none has
      it. */
  function LookupId<T>(s: seq<T>, key: T -> int, idText: string): (r: Response<T>)
    ensures r.BadRequest? <==> Atoi(idText).None?
    ensures r.NotFound? <==>
      Atoi(idText).Some? && forall i :: 0 <= i < |s| ==> key(s[i]) != Atoi(idText).value
    ensures r.Ok? ==>
      Atoi(idText).Some? && exists i :: FirstWith(s, key, Atoi(idText).value, i) && s[i] == r.body
    ensures !r.MethodNotAllowed?
  {
    match Atoi(idText)
    case None => BadRequest
    case Some(id) =>
      match Find(s, key, id)
      case Some(x) => Ok(x)
      case None => NotFound
  }

  /** The lookup as the handlers run it: parse, then scan. */
  method ResolveId<T>(s: seq<T>, key: T -> int, idText: string) returns (resp: Response<T>)
    ensures resp == LookupId(s, key, idText)
  {
    var id := Atoi(idText);
    if id.None? {
      return BadRequest;
    }
    var found := Scan(s, key, id.value);
    if found.None? {
      return NotFound;
    }
    return Ok(found.value);
  }

  /** handleModelByID: outside the prefix, or with nothing after it, 404;
      otherwise the lookup of the rest of the path. */
  function ModelById(db: Data, path: string): (r: Response<CarModel>)
    ensures !IsPrefix(ModelsPrefix, path) || path == ModelsPrefix ==> r == NotFound
    ensures IsPrefix(ModelsPrefix, path) && path != ModelsPrefix ==>
      r == LookupId(db.carModels, ModelId, TrimPrefix(path, ModelsPrefix))
  {
    if !IsPrefix(ModelsPrefix, path) then NotFound
    else
      var idText := TrimPrefix(path, ModelsPrefix);
      if idText == "" then NotFound
      else LookupId(db.carModels, ModelId, idText)
  }

  method HandleModelById(db: Data, path: string) returns (resp: Response<CarModel>)
    ensures resp == ModelById(db, path)
  {
    if !IsPrefix(ModelsPrefix, path) {
      return NotFound;
    }
    var idText := TrimPrefix(path, ModelsPrefix);
    if idText == "" {
      return NotFound;
    }
    resp := ResolveId(db.carModels, ModelId, idText);
  }

  /** handleManufacturerByID: like the model lookup, but an empty id goes to
      the parser and is refused with 400. */
  function ManufacturerById(db: Data, path: string): (r: Response<Manufacturer>)
    ensures !IsPrefix(ManufacturersPrefix, path) ==> r == NotFound
    ensures IsPrefix(ManufacturersPrefix, path) ==>
      r == LookupId(db.manufacturers, ManufacturerId, TrimPrefix(path, ManufacturersPrefix))
  {
    if !IsPrefix(ManufacturersPrefix, path) then NotFound
    else LookupId(db.manufacturers, ManufacturerId, TrimPrefix(path, ManufacturersPrefix))
  }

  method HandleManufacturerById(db: Data, path: string) returns (resp: Response<Manufacturer>)
    ensures resp == ManufacturerById(db, path)
  {
    if !IsPrefix(ManufacturersPrefix, path) {
      return NotFound;
    }
    resp := ResolveId(db.manufacturers, ManufacturerId, TrimPrefix(path, ManufacturersPrefix));
  }

  /** handleCategoryByID: as for manufacturers. */
  function CategoryById(db: Data, path: string): (r: Response<Category>)
    ensures !IsPrefix(CategoriesPrefix, path) ==> r == NotFound
    ensures IsPrefix(CategoriesPrefix, path) ==>
      r == LookupId(db.categories, CategoryId, TrimPrefix(path, CategoriesPrefix))
  {
    if !IsPrefix(CategoriesPrefix, path) then NotFound
    else LookupId(db.categories, CategoryId, TrimPrefix(path, CategoriesPrefix))
  }

  method HandleCategoryById(db: Data, path: string) returns (resp: Response<Category>)
    ensures resp == CategoryById(db, path)
  {
    if !IsPrefix(CategoriesPrefix, path) {
      return NotFound;
    }
    resp := ResolveId(db.categories, CategoryId, TrimPrefix(path, CategoriesPrefix));
  }

  /** The empty id is treated differently: the model lookup answers 404
      before parsing, the manufacturer and category lookups hand "" to the
      parser and answer 400. */
  lemma {:induction false} EmptyIdAsymmetry(db: Data)
    ensures ModelById(db, ModelsPrefix) == NotFound
    ensures ManufacturerById(db, ManufacturersPrefix) == BadRequest
    ensures CategoryById(db, CategoriesPrefix) == BadRequest
  {
    assert IsPrefix(ManufacturersPrefix, ManufacturersPrefix);
    assert IsPrefix(CategoriesPrefix, CategoriesPrefix);
    assert TrimPrefix(ManufacturersPrefix, ManufacturersPrefix) == "";
    assert TrimPrefix(CategoriesPrefix, CategoriesPrefix) == "";
  }

  /** A non-numeric id is a bad request, never a miss. */
  lemma {:induction false} NonNumericIdIsBadRequest(db: Data, idText: string)
    requires idText != "" && Atoi(idText).None?
    ensures ModelById(db, ModelsPrefix + idText) == BadRequest
    ensures ManufacturerById(db, ManufacturersPrefix + idText) == BadRequest
    ensures CategoryById(db, CategoriesPrefix + idText) == BadRequest
  {
    PrefixTrims(ModelsPrefix, idText);
    PrefixTrims(ManufacturersPrefix, idText);
    PrefixTrims(CategoriesPrefix, idText);
  }

  lemma PrefixTrims(prefix: string, rest: string)
    ensures IsPrefix(prefix, prefix + rest) && TrimPrefix(prefix + rest, prefix) == rest
  {
    assert (prefix + rest)[..|prefix|] == prefix;
  }

  /** Looking up the decimal form of an id: when the ids are unique, a
      present id yields exactly the model that has it, and an absent one
      yields 404. */
  lemma {:induction false} ModelByFormattedId(db: Data, id: int)
    requires forall j, k :: 0 <= j < k < |db.carModels| ==> db.carModels[j].id != db.carModels[k].id
    ensures forall i :: 0 <= i < |db.carModels| && db.carModels[i].id == id ==>
      ModelById(db, ModelsPrefix + Itoa(id)) == Ok(db.carModels[i])
    ensures (forall i :: 0 <= i < |db.carModels| ==> db.carModels[i].id != id) ==>
      ModelById(db, ModelsPrefix + Itoa(id)) == NotFound
  {
    AtoiItoa(id);
    ItoaCharacters(id);
    PrefixTrims(ModelsPrefix, Itoa(id));
    assert ModelsPrefix + Itoa(id) != ModelsPrefix by {
      assert |ModelsPrefix + Itoa(id)| > |ModelsPrefix|;
    }
    forall i | 0 <= i < |db.carModels| && db.carModels[i].id == id
      ensures ModelById(db, ModelsPrefix + Itoa(id)) == Ok(db.carModels[i])
    {
      FindUnique(db.carModels, ModelId, i);
    }
  }
}
