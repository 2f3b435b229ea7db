/** The read handler (src/get-items/index.ts): with a path id it reads one item, otherwise it
    scans a page of the table; either way each returned item is a copy carrying an `imageUrl`. */
module GetItemsHandler {
  import opened Common
  import opened Http
  import opened Config
  import opened Services

  const ItemMessage := "Item retrieved successfully"
  const ItemsMessage := "Items retrieved successfully"

  /** `generateImageUrl`: the presigned URL `sign` gives for the key, or `null` when signing
      throws (`sign` answers `None`). */
  function GenerateImageUrl(sign: Value -> Option<string>, imageKey: Value): (url: Value)
    ensures url == Null || url.Str?
    ensures url.Str? <==> sign(imageKey).Some?
    ensures url.Str? ==> url.s == sign(imageKey).value
  {
    match sign(imageKey)
    case Some(u) => Str(u)
    case None => Null
  }

  /** The copy of one item with its `imageUrl`: a URL only when the item has a truthy `imageKey`. */
  function WithImageUrl(sign: Value -> Option<string>, item: Item): (copy: Item)
    ensures copy.Keys == item.Keys + {"imageUrl"}
    ensures forall k :: k in item && k != "imageUrl" ==> copy[k] == item[k]
    ensures copy["imageUrl"] == Null || copy["imageUrl"].Str?
    ensures copy["imageUrl"] != Null <==>
      "imageKey" in item && Truthy(item["imageKey"]) && sign(item["imageKey"]).Some?
    ensures copy["imageUrl"] != Null ==> copy["imageUrl"] == Str(sign(item["imageKey"]).value)
  {
    var url := if "imageKey" in item && Truthy(item["imageKey"]) then GenerateImageUrl(sign, item["imageKey"]) else Null;
    item["imageUrl" := url]
  }

  /** `addImageUrlsToItems`: one copy per item, in the same order. */
  function AddImageUrls(sign: Value -> Option<string>, items: seq<Item>): (out: seq<Item>)
    ensures |out| == |items|
    ensures forall i :: 0 <= i < |items| ==> out[i] == WithImageUrl(sign, items[i])
  {
    seq(|items|, i requires 0 <= i < |items| => WithImageUrl(sign, items[i]))
  }

  /** Augmenting takes nothing away: dropping `imageUrl` again gives back every item that had none. */
  lemma AddImageUrlsKeepsItems(sign: Value -> Option<string>, items: seq<Item>)
    ensures forall i :: 0 <= i < |items| && "imageUrl" !in items[i] ==>
      AddImageUrls(sign, items)[i] - {"imageUrl"} == items[i]
  {
    forall i | 0 <= i < |items| && "imageUrl" !in items[i]
      ensures AddImageUrls(sign, items)[i] - {"imageUrl"} == items[i]
    {
      var copy := AddImageUrls(sign, items)[i];
      assert (copy - {"imageUrl"}).Keys == items[i].Keys;
    }
  }

  /** `queryParameters[name]` when truthy (present and not empty). */
  function Query(req: Request, name: string): (t: Option<Text>)
    ensures t.Some? ==> name in req.queryParameters && t.value == req.queryParameters[name]
    ensures t.None? ==> name !in req.queryParameters || req.queryParameters[name].raw == ""
  {
    if name in req.queryParameters && req.queryParameters[name].raw != "" then Some(req.queryParameters[name]) else None
  }

  /** The scan parameters: `Limit` only when `limit` is given, parsed as `parseInt` does;
      `ExclusiveStartKey` only when `lastEvaluatedKey` is given, parsed as JSON (whose
      `SyntaxError` propagates). */
  function ScanRequest(req: Request): (r: Result<ScanParams>)
    ensures r.Err? <==> Query(req, "lastEvaluatedKey").Some? && Parse(Query(req, "lastEvaluatedKey").value).Err?
    ensures r.Err? ==> r.error.name == "SyntaxError"
    ensures r.Ok? ==> (r.value.limit.Some? <==> Query(req, "limit").Some?)
    ensures r.Ok? && r.value.limit.Some? ==> r.value.limit.value == ParseInt(Query(req, "limit").value.raw)
    ensures r.Ok? ==> (r.value.exclusiveStartKey.Some? <==> Query(req, "lastEvaluatedKey").Some?)
    ensures r.Ok? && r.value.exclusiveStartKey.Some? ==>
      Parse(Query(req, "lastEvaluatedKey").value) == Ok(r.value.exclusiveStartKey.value)
  {
    var limit := if Query(req, "limit").Some? then Some(ParseInt(Query(req, "limit").value.raw)) else None;
    match Query(req, "lastEvaluatedKey")
    case None => Ok(ScanParams(limit, None))
    case Some(t) =>
      match Parse(t)
      case Err(e) => Err(e)
      case Ok(v) => Ok(ScanParams(limit, Some(v)))
  }

  /** The `scanParams` object, filled field by field. */
  method BuildScanParams(req: Request) returns (r: Result<ScanParams>)
    ensures r == ScanRequest(req)
  {
    var params := ScanParams(None, None);
    var limit := Query(req, "limit");
    if limit.Some? {
      params := params.(limit := Some(ParseInt(limit.value.raw)));
    }
    var start := Query(req, "lastEvaluatedKey");
    if start.Some? {
      var parsed := Parse(start.value);
      if parsed.Err? {
        return Err(parsed.error);
      }
      params := params.(exclusiveStartKey := Some(parsed.value));
    }
    r := Ok(params);
  }

  /** A `limit` written as a decimal number reaches the table as that number. */
  lemma LimitPassesThrough(req: Request, n: nat)
    requires "limit" in req.queryParameters && req.queryParameters["limit"].raw == NatToString(n)
    requires ScanRequest(req).Ok?
    ensures ScanRequest(req).value.limit == Some(Int(n))
  {
    ParseIntOfNatToString(n);
  }

  /** `result.Items || []`. */
  function ItemsOf(page: ScanPage): (items: seq<Item>)
    ensures page.items.None? ==> items == []
    ensures page.items.Some? ==> items == page.items.value
  {
    if page.items.Some? then page.items.value else []
  }

  /** The handler. `sign` presigns image keys and `page` is the table's answer to a scan. */
  function Handle(cfg: Config, req: Request, sign: Value -> Option<string>, page: ScanPage, s: State): (r: (Response, State))
    ensures r.0.headers == CorsHeaders
    ensures r.1.table == s.table && r.1.bucket == s.bucket && r.1.topic == s.topic && r.1.failing == s.failing
    ensures r.0.statusCode in {200, 401, 404, 500}
    ensures r.0.statusCode == 401 <==> ValidateConfig(cfg).None? && !Authorized(req)
    ensures r.0.statusCode == 401 ==> r.1 == s && r.0 == Unauthorized()
    ensures r.0.statusCode == 404 <==>
      ValidateConfig(cfg).None? && Authorized(req) && PathId(req).Some? && s.Clear(1) &&
      PathId(req).value !in s.table
    ensures r.0.statusCode == 404 ==> r.0 == NotFound() && r.1 == s.Record(GetItem(PathId(req).value))
    ensures r.0.statusCode == 500 ==> r.0.body.Failed? && r.0.body.error != ""
    ensures ValidateConfig(cfg).Some? ==> r == (InternalError(ValidateConfig(cfg).value), s)
    ensures ValidateConfig(cfg).None? && Authorized(req) && PathId(req).None? && ScanRequest(req).Err? ==>
      r == (InternalError(ScanRequest(req).error), s)
    ensures r.0.statusCode == 500 && ValidateConfig(cfg).None? && (PathId(req).Some? || ScanRequest(req).Ok?) ==>
      s.StoppedBy(r.1) && r.0 == InternalError(s.Thrown(r.1))
    ensures r.0.statusCode == 200 <==>
      ValidateConfig(cfg).None? && Authorized(req) && s.Clear(1) &&
      (if PathId(req).Some? then PathId(req).value in s.table else ScanRequest(req).Ok?)
    ensures r.0.statusCode == 200 && PathId(req).Some? ==>
      (PathId(req).value in s.table &&
       r.1.log == s.log + [GetItem(PathId(req).value)] &&
       r.0.body == ItemBody(ItemMessage, WithImageUrl(sign, s.table[PathId(req).value])))
    ensures r.0.statusCode == 200 && PathId(req).None? ==>
      (ScanRequest(req).Ok? &&
       r.1.log == s.log + [ScanItems(ScanRequest(req).value)] &&
       r.0.body == ItemsBody(ItemsMessage, AddImageUrls(sign, ItemsOf(page)), |ItemsOf(page)|, page.lastEvaluatedKey) &&
       r.0.body.count == |r.0.body.items|)
  {
    if ValidateConfig(cfg).Some? then (InternalError(ValidateConfig(cfg).value), s)
    else if !Authorized(req) then (Unauthorized(), s)
    else if PathId(req).Some? then
      var id := PathId(req).value;
      var (found, s1) := s.Get(id);
      if found.Err? then (InternalError(found.error), s1)
      else if found.value.None? then (NotFound(), s1)
      else (Respond(200, ItemBody(ItemMessage, AddImageUrls(sign, [found.value.value])[0])), s1)
    else
      match ScanRequest(req)
      case Err(e) => (InternalError(e), s)
      case Ok(params) =>
        var (scanned, s1) := s.Scan(params, page);
        if scanned.Err? then (InternalError(scanned.error), s1)
        else
          var items := AddImageUrls(sign, ItemsOf(scanned.value));
          (Respond(200, ItemsBody(ItemsMessage, items, |items|, scanned.value.lastEvaluatedKey)), s1)
  }

  /** The handler as it runs against the services. */
  method HandleGet(b: Backend, cfg: Config, req: Request, sign: Value -> Option<string>, page: ScanPage)
    returns (resp: Response)
    modifies b
    ensures (resp, b.Snapshot()) == Handle(cfg, req, sign, page, old(b.Snapshot()))
  {
    var thrown := ValidateConfig(cfg);
    if thrown.Some? {
      return InternalError(thrown.value);
    }
    if !Authorized(req) {
      return Unauthorized();
    }
    var itemId := PathId(req);
    if itemId.Some? {
      var found := b.Get(itemId.value);
      if found.Err? {
        return InternalError(found.error);
      }
      if found.value.None? {
        return NotFound();
      }
      var withUrl := AddImageUrls(sign, [found.value.value]);
      return Respond(200, ItemBody(ItemMessage, withUrl[0]));
    }
    var params := BuildScanParams(req);
    if params.Err? {
      return InternalError(params.error);
    }
    var scanned := b.Scan(params.value, page);
    if scanned.Err? {
      return InternalError(scanned.error);
    }
    var items := AddImageUrls(sign, ItemsOf(scanned.value));
    resp := Respond(200, ItemsBody(ItemsMessage, items, |items|, scanned.value.lastEvaluatedKey));
  }
}
