/** The compare endpoint, /api/models/compare?ids=1,2,3: the models named by
    a comma-separated id list, in the order of the list. The handler's loop
    does two things per token, and the model keeps them apart: parsing the
    tokens into ids (ParseIds) and resolving ids to models (ResolveIds). */
module CompareEndpoint {
  import opened Wrappers
  import opened GoStrings
  import opened GoStrconv
  import opened Catalog
  import opened Query

  /** The id a token of the list stands for: the token parsed after its
      surrounding white space is trimmed. */
  function TokenId(token: string): (r: Option<int>)
    ensures r.Some? <==> IsDecimal(TrimSpace(token))
  {
    Atoi(TrimSpace(token))
  }

  /** White space around a token is ignored: a token is its decimal text
      with any white space before and after it. */
  lemma TokenIdIgnoresSpace(pre: string, digits: string, post: string)
    requires forall k :: 0 <= k < |pre| ==> IsSpace(pre[k])
    requires forall k :: 0 <= k < |post| ==> IsSpace(post[k])
    requires IsDecimal(digits)
    ensures TokenId(pre + digits + post) == Atoi(digits)
  {
    assert !IsSpace(digits[0]) && !IsSpace(digits[|digits| - 1]) by {
      if AllDigits(digits) {
        assert IsDigit(digits[0]);
      } else {
        assert IsDigit(digits[1..][|digits| - 2]);
      }
      assert IsDigit(digits[|digits| - 1]);
    }
    TrimSpaceAround(pre, digits, post);
  }

  /** The ids of the tokens that parse, in token order; the others are
      skipped. */
  function ParseIds(tokens: seq<string>): (ids: seq<int>)
    ensures |ids| <= |tokens|
  {
    if tokens == [] then []
    else
      var init := ParseIds(tokens[..|tokens| - 1]);
      match TokenId(tokens[|tokens| - 1])
      case Some(id) => init + [id]
      case None => init
  }

  /** The model of each id that has one, in id order; ids that name no model
      are skipped. */
  function ResolveIds(ms: seq<CarModel>, ids: seq<int>): (r: seq<CarModel>)
    ensures |r| <= |ids|
  {
    if ids == [] then []
    else
      var init := ResolveIds(ms, ids[..|ids| - 1]);
      match Find(ms, ModelId, ids[|ids| - 1])
      case Some(m) => init + [m]
      case None => init
  }

  ghost predicate HasModel(ms: seq<CarModel>, id: int)
  {
    exists i :: 0 <= i < |ms| && ms[i].id == id
  }

  /** The ids that survive resolution: those naming a model, in order,
      repeats kept. */
  ghost function KnownIds(ms: seq<CarModel>, ids: seq<int>): seq<int>
  {
    if ids == [] then []
    else
      KnownIds(ms, ids[..|ids| - 1])
        + (if HasModel(ms, ids[|ids| - 1]) then [ids[|ids| - 1]] else [])
  }

  /** The result follows the request, not the dataset: entry k is the first
      model of the dataset whose id is the k-th surviving id. */
  lemma {:induction false} ResolveFollowsRequest(ms: seq<CarModel>, ids: seq<int>)
    ensures |ResolveIds(ms, ids)| == |KnownIds(ms, ids)|
    ensures forall k :: 0 <= k < |ResolveIds(ms, ids)| ==>
      ResolveIds(ms, ids)[k].id == KnownIds(ms, ids)[k]
      && Find(ms, ModelId, KnownIds(ms, ids)[k]) == Some(ResolveIds(ms, ids)[k])
    decreases |ids|
  {
    if ids != [] {
      var init, last := ids[..|ids| - 1], ids[|ids| - 1];
      ResolveFollowsRequest(ms, init);
      var f := Find(ms, ModelId, last);
      assert f.Some? <==> HasModel(ms, last);
      if f.Some? {
        var i :| FirstWith(ms, ModelId, last, i) && ms[i] == f.value;
        assert f.value.id == last;
      }
    }
  }

  /** Everything the compare endpoint returns comes from the dataset. */
  lemma {:induction false} ResolveIdsInDataset(ms: seq<CarModel>, ids: seq<int>)
    ensures forall m :: m in ResolveIds(ms, ids) ==> m in ms
    decreases |ids|
  {
    if ids != [] {
      ResolveIdsInDataset(ms, ids[..|ids| - 1]);
      var f := Find(ms, ModelId, ids[|ids| - 1]);
      if f.Some? {
        var i :| FirstWith(ms, ModelId, ids[|ids| - 1], i) && ms[i] == f.value;
      }
    }
  }

  /** handleCompare: 400 when `ids` is empty or absent; otherwise never an
      error, and at most one model per comma-separated token, each of them
      from the dataset. */
  function Compare(db: Data, ids: string): (r: Response<seq<CarModel>>)
    ensures r.BadRequest? <==> ids == ""
    ensures r.Ok? <==> ids != ""
    ensures r.Ok? ==> |r.body| <= Count(ids, ',') + 1
    ensures r.Ok? ==> forall m :: m in r.body ==> m in db.carModels
  {
    if ids == "" then BadRequest
    else
      var parsed := ParseIds(Split(ids, ','));
      ResolveIdsInDataset(db.carModels, parsed);
      Ok(ResolveIds(db.carModels, parsed))
  }

  /** For any non-empty id list, entry k of the answer is the first model of
      the dataset whose id is the k-th token that both parses (after its white
      space is trimmed) and names a model; tokens that do not parse and ids
      that name no model are skipped. */
  lemma CompareFollowsRequest(db: Data, ids: string)
    requires ids != ""
    ensures var known := KnownIds(db.carModels, ParseIds(Split(ids, ',')));
      |Compare(db, ids).body| == |known|
      && forall k :: 0 <= k < |known| ==>
        Find(db.carModels, ModelId, known[k]) == Some(Compare(db, ids).body[k])
  {
    var parsed := ParseIds(Split(ids, ','));
    assert Compare(db, ids).body == ResolveIds(db.carModels, parsed);
    ResolveFollowsRequest(db.carModels, parsed);
  }

  lemma ParseIdsStep(tokens: seq<string>, i: nat)
    requires i < |tokens|
    ensures ParseIds(tokens[..i + 1]) ==
      match TokenId(tokens[i])
      case Some(id) => ParseIds(tokens[..i]) + [id]
      case None => ParseIds(tokens[..i])
  {
    assert tokens[..i + 1][..i] == tokens[..i];
  }

  /** Appending a token that parses appends its id. */
  lemma ParseIdsSnoc(tokens: seq<string>, token: string, id: int)
    requires TokenId(token) == Some(id)
    ensures ParseIds(tokens + [token]) == ParseIds(tokens) + [id]
  {
    assert (tokens + [token])[..|tokens|] == tokens;
  }

  lemma ResolveIdsSnoc(ms: seq<CarModel>, ids: seq<int>, id: int)
    ensures ResolveIds(ms, ids + [id]) ==
      match Find(ms, ModelId, id)
      case Some(m) => ResolveIds(ms, ids) + [m]
      case None => ResolveIds(ms, ids)
  {
    assert (ids + [id])[..|ids|] == ids;
  }

  /** The handler's loop: for each token, parse it (skipping it when it does
      not parse), scan for its model and append what it finds. */
  method HandleCompare(db: Data, ids: string) returns (resp: Response<seq<CarModel>>)
    ensures resp == Compare(db, ids)
  {
    if ids == "" {
      return BadRequest;
    }
    var parts := Split(ids, ',');
    var result: seq<CarModel> := [];
    for i := 0 to |parts|
      invariant result == ResolveIds(db.carModels, ParseIds(parts[..i]))
    {
      ParseIdsStep(parts, i);
      var id := Atoi(TrimSpace(parts[i]));
      if id.None? {
        continue;
      }
      ResolveIdsSnoc(db.carModels, ParseIds(parts[..i]), id.value);
      var found := Scan(db.carModels, ModelId, id.value);
      if found.Some? {
        result := result + [found.value];
      }
    }
    assert parts[..|parts|] == parts;
    return Ok(result);
  }

  // ----- Ids written by a client -------------------------------------------

  /** The id list a client writes: each id in decimal. */
  function FormatIds(ids: seq<int>): (r: seq<string>)
    ensures |r| == |ids|
    ensures forall k :: 0 <= k < |ids| ==> r[k] == Itoa(ids[k])
  {
    if ids == [] then [] else FormatIds(ids[..|ids| - 1]) + [Itoa(ids[|ids| - 1])]
  }

  lemma TokenIdOfItoa(n: int)
    ensures TokenId(Itoa(n)) == Some(n)
  {
    ItoaCharacters(n);
    TrimSpaceNoSpace(Itoa(n));
    AtoiItoa(n);
  }

  lemma FormatIdsSnoc(ids: seq<int>, id: int)
    ensures FormatIds(ids + [id]) == FormatIds(ids) + [Itoa(id)]
  {
    assert (ids + [id])[..|ids|] == ids;
  }

  /** Parsing undoes formatting. */
  lemma {:induction false} ParseFormatted(ids: seq<int>)
    ensures ParseIds(FormatIds(ids)) == ids
    decreases |ids|
  {
    if ids != [] {
      var init, last := ids[..|ids| - 1], ids[|ids| - 1];
      assert init + [last] == ids;
      ParseFormatted(init);
      FormatIdsSnoc(init, last);
      TokenIdOfItoa(last);
      ParseIdsSnoc(FormatIds(init), Itoa(last), last);
    }
  }

  lemma {:induction false} KnownIdsAll(ms: seq<CarModel>, ids: seq<int>)
    requires forall k :: 0 <= k < |ids| ==> HasModel(ms, ids[k])
    ensures KnownIds(ms, ids) == ids
    decreases |ids|
  {
    if ids != [] {
      KnownIdsAll(ms, ids[..|ids| - 1]);
      assert HasModel(ms, ids[|ids| - 1]);
      assert ids[..|ids| - 1] + [ids[|ids| - 1]] == ids;
    }
  }

  /** When every id names a model, resolution gives one model per id, in
      order, and equal ids give equal models. */
  lemma ResolveKnownIds(ms: seq<CarModel>, ids: seq<int>)
    requires forall k :: 0 <= k < |ids| ==> HasModel(ms, ids[k])
    ensures |ResolveIds(ms, ids)| == |ids|
    ensures forall k :: 0 <= k < |ids| ==> ResolveIds(ms, ids)[k].id == ids[k]
    ensures forall j, k :: 0 <= j < |ids| && 0 <= k < |ids| && ids[j] == ids[k] ==>
      ResolveIds(ms, ids)[j] == ResolveIds(ms, ids)[k]
  {
    KnownIdsAll(ms, ids);
    ResolveFollowsRequest(ms, ids);
  }

  /** A non-empty list of formatted ids is answered with the models of
      exactly those ids. */
  lemma {:induction false} CompareOfFormatted(db: Data, ids: seq<int>)
    requires |ids| >= 1
    ensures Compare(db, Join(FormatIds(ids), ',')) == Ok(ResolveIds(db.carModels, ids))
  {
    var pieces := FormatIds(ids);
    forall k | 0 <= k < |pieces| ensures ',' !in pieces[k] {
      ItoaCharacters(ids[k]);
    }
    SplitJoin(pieces, ',');
    var text := Join(pieces, ',');
    assert |text| >= 1 by {
      ItoaCharacters(ids[0]);
      if |pieces| > 1 {
        assert text == pieces[0] + [','] + Join(pieces[1..], ',');
      }
    }
    ParseFormatted(ids);
  }

  /** Comparing a list of ids written the way a client writes them returns,
      when every id names a model, one model per id in request order; a
      repeated id repeats its model. */
  lemma {:induction false} CompareFormattedIds(db: Data, ids: seq<int>)
    requires |ids| >= 1
    requires forall k :: 0 <= k < |ids| ==> HasModel(db.carModels, ids[k])
    ensures Compare(db, Join(FormatIds(ids), ',')).Ok?
    ensures |Compare(db, Join(FormatIds(ids), ',')).body| == |ids|
    ensures forall k :: 0 <= k < |ids| ==> Compare(db, Join(FormatIds(ids), ',')).body[k].id == ids[k]
    ensures forall j, k :: 0 <= j < |ids| && 0 <= k < |ids| && ids[j] == ids[k] ==>
      Compare(db, Join(FormatIds(ids), ',')).body[j] == Compare(db, Join(FormatIds(ids), ',')).body[k]
  {
    CompareOfFormatted(db, ids);
    ResolveKnownIds(db.carModels, ids);
  }

  lemma ExampleSplit()
    ensures Split("2,1,abc,99", ',') == ["2", "1", "abc", "99"]
  {
    var parts := ["2", "1", "abc", "99"];
    assert Join(parts[3..], ',') == "99";
    assert Join(parts[2..], ',') == "abc,99" by {
      assert parts[2..][1..] == parts[3..];
    }
    assert Join(parts[1..], ',') == "1,abc,99" by {
      assert parts[1..][1..] == parts[2..];
    }
    assert Join(parts, ',') == "2,1,abc,99";
    SplitJoin(parts, ',');
  }

  lemma ExampleTokens()
    ensures TokenId("2") == Some(2) && TokenId("1") == Some(1)
    ensures TokenId("abc") == None && TokenId("99") == Some(99)
  {
    TokenIdOfItoa(2);
    TokenIdOfItoa(1);
    TokenIdOfItoa(99);
    assert Itoa(2) == "2" && Itoa(1) == "1";
    assert Itoa(99) == "99" by { assert NatDigits(9) == "9"; }
    TrimSpaceNoSpace("abc");
    assert !IsDigit("abc"[0]);
  }

  lemma ParseTwoTokens(a: string, b: string, x: int, y: int)
    requires TokenId(a) == Some(x) && TokenId(b) == Some(y)
    ensures ParseIds([a, b]) == [x, y]
  {
    assert [a, b][..1] == [a] && [a][..0] == [];
  }

  lemma ParseFourTokens(a: string, b: string, c: string, d: string, x: int, y: int, z: int)
    requires ParseIds([a, b]) == [x, y]
    requires TokenId(c).None? && TokenId(d) == Some(z)
    ensures ParseIds([a, b, c, d]) == [x, y, z]
  {
    assert [a, b, c, d][..3] == [a, b, c] && [a, b, c][..2] == [a, b];
  }

  lemma ExampleParse()
    ensures ParseIds(["2", "1", "abc", "99"]) == [2, 1, 99]
  {
    ExampleTokens();
    ParseTwoTokens("2", "1", 2, 1);
    ParseFourTokens("2", "1", "abc", "99", 2, 1, 99);
  }

  lemma ExampleResolve(m1: CarModel, m2: CarModel)
    requires m1.id == 1 && m2.id == 2
    ensures ResolveIds([m1, m2], [2, 1, 99]) == [m2, m1]
  {
    var ms := [m1, m2];
    assert Find(ms, ModelId, 99) == None;
    assert [2, 1, 99][..2] == [2, 1] && [2, 1][..1] == [2];
    assert ResolveIds(ms, [2]) == [m2];
    assert ResolveIds(ms, [2, 1]) == [m2, m1];
  }

  /** An example: with models 1 and 2 only,
      "2,1,abc,99" gives model 2 then model 1; "abc" does not parse and 99
      names no model, so both are skipped. */
  lemma CompareExample(db: Data, m1: CarModel, m2: CarModel)
    requires db.carModels == [m1, m2] && m1.id == 1 && m2.id == 2
    ensures Compare(db, "2,1,abc,99") == Ok([m2, m1])
  {
    ExampleSplit();
    ExampleParse();
    ExampleResolve(m1, m2);
  }
}
