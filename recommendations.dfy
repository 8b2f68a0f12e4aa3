/** The recommendations endpoint, /api/recommendations: the models of one
    manufacturer, else of one category, else the first three models. */
module RecommendationsEndpoint {
  import opened Wrappers
  import opened GoStrconv
  import opened Catalog
  import opened Query

  /** How many models the fallback recommends at most. */
  const FallbackSize := 3

  /** The default recommendation: the first three models in dataset order,
      or all of them when there are fewer. */
  function Fallback(ms: seq<CarModel>): (r: seq<CarModel>)
    ensures |ms| >= FallbackSize ==> r == ms[..FallbackSize]
    ensures |ms| < FallbackSize ==> r == ms
  {
    var limit := if |ms| < FallbackSize then |ms| else FallbackSize;
    ms[..limit]
  }

  /** The matches the handler collects before falling back: a non-empty
      manufacturerId decides alone (categoryId is not looked at, even when
      the manufacturerId does not parse); categoryId is used only when
      manufacturerId is absent. */
  function Matches(ms: seq<CarModel>, manufacturerId: string, categoryId: string): (r: seq<CarModel>)
    ensures IsSubsequence(r, ms)
    ensures manufacturerId != "" ==> forall m :: m in r <==>
      m in ms && Atoi(manufacturerId).Some? && m.manufacturerId == Atoi(manufacturerId).value
    ensures manufacturerId == "" ==> forall m :: m in r <==>
      m in ms && categoryId != "" && Atoi(categoryId).Some? && m.categoryId == Atoi(categoryId).value
  {
    if manufacturerId != "" then
      match Atoi(manufacturerId)
      case Some(id) =>
        FilterIsSubsequence(ms, ManufacturerIs(id));
        FilterMembership(ms, ManufacturerIs(id));
        Filter(ms, ManufacturerIs(id))
      case None => []
    else if categoryId != "" then
      match Atoi(categoryId)
      case Some(id) =>
        FilterIsSubsequence(ms, CategoryIs(id));
        FilterMembership(ms, CategoryIs(id));
        Filter(ms, CategoryIs(id))
      case None => []
    else
      []
  }

  /** handleRecommendations: never an error; the matches when there are any,
      otherwise the fallback. Either way the list keeps dataset order and is
      empty only when the dataset is. */
  function Recommendations(db: Data, manufacturerId: string, categoryId: string): (r: Response<seq<CarModel>>)
    ensures r.Ok?
    ensures IsSubsequence(r.body, db.carModels)
    ensures r.body == [] <==> db.carModels == []
  {
    var ms := db.carModels;
    var matches := Matches(ms, manufacturerId, categoryId);
    if |matches| == 0 then
      PrefixIsSubsequence(ms, |Fallback(ms)|);
      Ok(Fallback(ms))
    else
      assert matches[0] in matches;
      Ok(matches)
  }

  /** The handler: one filter loop chosen by the parameters, then the
      fallback to a prefix of the dataset when it found nothing. */
  method HandleRecommendations(db: Data, manufacturerId: string, categoryId: string)
    returns (resp: Response<seq<CarModel>>)
    ensures resp == Recommendations(db, manufacturerId, categoryId)
  {
    var result: seq<CarModel> := [];
    if manufacturerId != "" {
      var id := Atoi(manufacturerId);
      if id.Some? {
        result := Retain(db.carModels, ManufacturerIs(id.value));
      }
    } else if categoryId != "" {
      var id := Atoi(categoryId);
      if id.Some? {
        result := Retain(db.carModels, CategoryIs(id.value));
      }
    }
    if |result| == 0 {
      var limit := FallbackSize;
      if |db.carModels| < limit {
        limit := |db.carModels|;
      }
      result := db.carModels[..limit];
    }
    return Ok(result);
  }

  /** A non-empty manufacturerId takes precedence: categoryId is then
      irrelevant. */
  lemma ManufacturerTakesPrecedence(db: Data, manufacturerId: string, categoryId: string, otherCategoryId: string)
    requires manufacturerId != ""
    ensures Recommendations(db, manufacturerId, categoryId)
         == Recommendations(db, manufacturerId, otherCategoryId)
  {
  }

  /** A manufacturerId that parses recommends exactly that manufacturer's
      models, in dataset order, when it has any, and the fallback otherwise. */
  lemma {:induction false} ByManufacturer(db: Data, manufacturerId: string, categoryId: string, id: int)
    requires Atoi(manufacturerId) == Some(id)
    ensures (exists i :: 0 <= i < |db.carModels| && db.carModels[i].manufacturerId == id) ==>
      Recommendations(db, manufacturerId, categoryId).body == Filter(db.carModels, ManufacturerIs(id))
      && forall m :: m in Recommendations(db, manufacturerId, categoryId).body <==>
           m in db.carModels && m.manufacturerId == id
    ensures (forall i :: 0 <= i < |db.carModels| ==> db.carModels[i].manufacturerId != id) ==>
      Recommendations(db, manufacturerId, categoryId).body == Fallback(db.carModels)
  {
    var ms := db.carModels;
    FilterMembership(ms, ManufacturerIs(id));
    if exists i :: 0 <= i < |ms| && ms[i].manufacturerId == id {
      var i :| 0 <= i < |ms| && ms[i].manufacturerId == id;
      assert ms[i] in Filter(ms, ManufacturerIs(id));
    } else {
      FilterDropsAll(ms, ManufacturerIs(id));
    }
  }

  /** Without a manufacturerId, a categoryId that parses recommends exactly
      that category's models when it has any, and the fallback otherwise. */
  lemma {:induction false} ByCategory(db: Data, categoryId: string, id: int)
    requires Atoi(categoryId) == Some(id)
    ensures (exists i :: 0 <= i < |db.carModels| && db.carModels[i].categoryId == id) ==>
      Recommendations(db, "", categoryId).body == Filter(db.carModels, CategoryIs(id))
      && forall m :: m in Recommendations(db, "", categoryId).body <==>
           m in db.carModels && m.categoryId == id
    ensures (forall i :: 0 <= i < |db.carModels| ==> db.carModels[i].categoryId != id) ==>
      Recommendations(db, "", categoryId).body == Fallback(db.carModels)
  {
    var ms := db.carModels;
    FilterMembership(ms, CategoryIs(id));
    if exists i :: 0 <= i < |ms| && ms[i].categoryId == id {
      var i :| 0 <= i < |ms| && ms[i].categoryId == id;
      assert ms[i] in Filter(ms, CategoryIs(id));
    } else {
      FilterDropsAll(ms, CategoryIs(id));
    }
  }

  /** No usable filter means the fallback: in particular a manufacturerId
      that does not parse falls back even beside a valid categoryId. */
  lemma FallsBackWithoutUsableFilter(db: Data, manufacturerId: string, categoryId: string)
    requires (manufacturerId != "" && Atoi(manufacturerId).None?)
          || (manufacturerId == "" && Atoi(categoryId).None?)
    ensures Recommendations(db, manufacturerId, categoryId).body == Fallback(db.carModels)
  {
  }
}
