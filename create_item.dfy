/** The create handler (src/main-api/index.ts): after the shared checks it reads `title`, `price`
    and `image` from the body, stores the image (when one is given) under a key derived from the
    new id, writes the row and announces it. */
module CreateItemHandler {
  import opened Common
  import opened Http
  import opened Config
  import opened Services

  const FieldsRequired := "Title and price are required"
  const CreatedSubject := "Data Created Notification"
  const CreatedMessage := "Data created successfully"

  /** The three properties read from the body; `undefined` is `None`. */
  datatype Draft = Draft(title: Value, price: Value, image: Option<Value>)

  /** The title is truthy and the price is neither `undefined` nor `null`. */
  predicate FieldsValid(title: Option<Value>, price: Option<Value>) {
    IsTruthy(title) && price.Some? && price.value != Null
  }

  /** The validation ladder: configuration, authorization, body, then the two fields. */
  function Validate(cfg: Config, req: Request): (g: Gate<Draft>)
    ensures g.Reject? ==> g.response.headers == CorsHeaders
    ensures g.Reject? && g.response.statusCode == 401 <==> ValidateConfig(cfg).None? && !Authorized(req)
    ensures g.Reject? && g.response.statusCode == 401 ==> g.response == Unauthorized()
    ensures g.Reject? && g.response.statusCode == 400 <==>
      ValidateConfig(cfg).None? && Authorized(req) &&
      (BodyText(req).None? ||
       (Parse(BodyText(req).value).Ok? && Parse(BodyText(req).value).value != Null &&
        !FieldsValid(Member(Parse(BodyText(req).value).value, "title"),
                     Member(Parse(BodyText(req).value).value, "price"))))
    ensures g.Reject? && g.response.statusCode == 400 ==>
      g.response == Respond(400, Failed(if BodyText(req).None? then BodyRequired else FieldsRequired))
    ensures g.Reject? ==> g.response.statusCode in {400, 401, 500}
    ensures g.Reject? && g.response.statusCode == 500 ==> g.response.body.Failed? && g.response.body.error != ""
    ensures ValidateConfig(cfg).Some? ==> g == Reject(InternalError(ValidateConfig(cfg).value))
    ensures g.Reject? && g.response.statusCode == 500 && ValidateConfig(cfg).None? ==>
      (BodyText(req).Some? &&
       var parsed := Parse(BodyText(req).value);
       g.response == InternalError(if parsed.Err? then parsed.error else DestructureNull("title", "body")))
    ensures g.Pass? <==>
      ValidateConfig(cfg).None? && Authorized(req) && BodyText(req).Some? &&
      Parse(BodyText(req).value).Ok? && Parse(BodyText(req).value).value != Null &&
      FieldsValid(Member(Parse(BodyText(req).value).value, "title"),
                  Member(Parse(BodyText(req).value).value, "price"))
    ensures g.Pass? ==>
      var body := Parse(BodyText(req).value).value;
      Some(g.value.title) == Member(body, "title") && Some(g.value.price) == Member(body, "price") &&
      g.value.image == Member(body, "image")
  {
    if ValidateConfig(cfg).Some? then Reject(InternalError(ValidateConfig(cfg).value))
    else if !Authorized(req) then Reject(Unauthorized())
    else if BodyText(req).None? then Reject(MissingBody())
    else
      match Parse(BodyText(req).value)
      case Err(e) => Reject(InternalError(e))
      case Ok(body) =>
        if body == Null then Reject(InternalError(DestructureNull("title", "body")))
        else
          var title := Member(body, "title");
          var price := Member(body, "price");
          if !FieldsValid(title, price) then Reject(Respond(400, Failed(FieldsRequired)))
          else Pass(Draft(title.value, price.value, Member(body, "image")))
  }

  /** The object key an item's image is stored under: `<id>/<id>.jpg`. */
  function ImageKey(id: string): string {
    id + "/" + id + ".jpg"
  }

  /** Different items never share an image object. */
  lemma ImageKeyInjective(a: string, b: string)
    requires ImageKey(a) == ImageKey(b)
    ensures a == b
  {
    assert |a| == |b|;
    assert ImageKey(a)[..|a|] == a;
    assert ImageKey(b)[..|b|] == b;
  }

  /** The stored image key, when the draft carries a truthy image. */
  function ImageKeyFor(id: string, d: Draft): (key: Option<string>)
    ensures key.Some? <==> IsTruthy(d.image)
    ensures key.Some? ==> key.value == ImageKey(id)
  {
    if IsTruthy(d.image) then Some(ImageKey(id)) else None
  }

  /** The stored form of an optional key: the string, or `null`. */
  function KeyValue(key: Option<string>): Value {
    if key.Some? then Str(key.value) else Null
  }

  /** The row the handler writes. */
  function NewRow(id: string, ts: string, d: Draft, imageKey: Option<string>): (row: Item)
    ensures row.Keys == {"id", "title", "price", "imageKey", "createdAt", "updatedAt"}
    ensures row["id"] == Str(id) && row["title"] == d.title && row["price"] == d.price
    ensures row["imageKey"] == KeyValue(imageKey)
    ensures row["createdAt"] == row["updatedAt"] == Str(ts)
  {
    map["id" := Str(id), "title" := d.title, "price" := d.price, "imageKey" := KeyValue(imageKey),
        "createdAt" := Str(ts), "updatedAt" := Str(ts)]
  }

  /** The number of service calls up to and including the table write. */
  function CallsToPut(d: Draft): nat {
    if IsTruthy(d.image) then 3 else 1
  }

  /** The row write and the notification. */
  function Insert(id: string, ts: string, d: Draft, imageKey: Option<string>, s: State): (r: (Response, State))
    ensures r.0.headers == CorsHeaders
    ensures r.1.failing == s.failing && r.1.bucket == s.bucket && s.log <= r.1.log
    ensures r.0.statusCode == 201 <==> s.Clear(2)
    ensures r.0.statusCode != 201 ==>
      r.0.statusCode == 500 && r.0.body.Failed? && r.0.body.error != "" && r.1.topic == s.topic
    ensures r.0.statusCode != 201 ==> s.StoppedBy(r.1) && r.0 == InternalError(s.Thrown(r.1))
    ensures r.1.table == if s.Clear(1) then s.table[id := NewRow(id, ts, d, imageKey)] else s.table
    ensures r.0.statusCode == 201 ==>
      r.1.topic == s.topic + [Notice(CreatedSubject, DataCreated(id, ts, imageKey.Some?))] &&
      r.0.body == CreatedBody(CreatedMessage, id, imageKey)
  {
    var (put, s1) := s.Put(id, NewRow(id, ts, d, imageKey));
    s.ClearNext(s1, 1);
    s.ClearNext(s1, 0);
    if put.Err? then (InternalError(put.error), s1)
    else
      var (published, s2) := s1.Publish(Notice(CreatedSubject, DataCreated(id, ts, imageKey.Some?)));
      s1.ClearNext(s2, 0);
      if published.Err? then (InternalError(published.error), s2)
      else (Respond(201, CreatedBody(CreatedMessage, id, imageKey)), s2)
  }

  /** The steps after validation: the image download and upload (when there is an image), then
      the row and the notification. */
  function Store(id: string, ts: string, d: Draft, s: State): (r: (Response, State))
    ensures r.0.headers == CorsHeaders
    ensures r.1.failing == s.failing && s.log <= r.1.log
    ensures r.0.statusCode == 201 <==> s.Clear(CallsToPut(d) + 1)
    ensures r.0.statusCode != 201 ==>
      r.0.statusCode == 500 && r.0.body.Failed? && r.0.body.error != "" && r.1.topic == s.topic
    ensures r.0.statusCode != 201 ==> s.StoppedBy(r.1) && r.0 == InternalError(s.Thrown(r.1))
    ensures r.1.bucket == if IsTruthy(d.image) && s.Clear(2) then s.bucket + {ImageKey(id)} else s.bucket
    ensures r.1.table ==
      if s.Clear(CallsToPut(d)) then s.table[id := NewRow(id, ts, d, ImageKeyFor(id, d))] else s.table
    ensures r.0.statusCode == 201 ==>
      r.1.topic == s.topic + [Notice(CreatedSubject, DataCreated(id, ts, IsTruthy(d.image)))] &&
      r.0.body == CreatedBody(CreatedMessage, id, ImageKeyFor(id, d))
  {
    if IsTruthy(d.image) then
      var (fetched, s1) := s.Fetch(d.image.value);
      s.ClearNext(s1, 3);
      s.ClearNext(s1, 2);
      s.ClearNext(s1, 1);
      if fetched.Err? then (InternalError(fetched.error), s1)
      else
        var (stored, s2) := s1.Upload(ImageKey(id));
        s1.ClearNext(s2, 2);
        s1.ClearNext(s2, 1);
        s1.ClearNext(s2, 0);
        if stored.Err? then (InternalError(stored.error), s2)
        else
          var r := Insert(id, ts, d, Some(ImageKey(id)), s2);
          s1.StoppedAfter(s2, r.1);
          s.StoppedAfter(s1, r.1);
          r
    else Insert(id, ts, d, None, s)
  }

  /** The handler, with `id` the freshly generated id and `ts` the time of the request. */
  function Handle(cfg: Config, req: Request, id: string, ts: string, s: State): (r: (Response, State))
    ensures r.0.headers == CorsHeaders
    ensures r.1.failing == s.failing && s.log <= r.1.log
    ensures r.0.statusCode in {201, 400, 401, 500}
    ensures r.0.statusCode in {400, 401} ==> r.1 == s
    ensures r.0.statusCode == 401 <==> ValidateConfig(cfg).None? && !Authorized(req)
    ensures r.0.statusCode == 401 ==> r.0 == Unauthorized()
    ensures r.0.statusCode == 400 ==>
      Validate(cfg, req).Reject? && r.0 == Validate(cfg, req).response &&
      r.0.body == Failed(if BodyText(req).None? then BodyRequired else FieldsRequired)
    ensures r.0.statusCode == 500 ==> r.0.body.Failed? && r.0.body.error != ""
    ensures ValidateConfig(cfg).Some? ==> r == (InternalError(ValidateConfig(cfg).value), s)
    ensures Validate(cfg, req).Reject? ==> r == (Validate(cfg, req).response, s)
    ensures r.0.statusCode == 500 && Validate(cfg, req).Pass? ==>
      s.StoppedBy(r.1) && r.0 == InternalError(s.Thrown(r.1))
    ensures r.0.statusCode != 201 ==> r.1.topic == s.topic
    ensures r.0.statusCode == 201 <==>
      Validate(cfg, req).Pass? && s.Clear(CallsToPut(Validate(cfg, req).value) + 1)
    ensures r.0.statusCode == 201 ==>
      (Validate(cfg, req).Pass? &&
       var d := Validate(cfg, req).value;
       var key := ImageKeyFor(id, d);
       r.1.table == s.table[id := NewRow(id, ts, d, key)] &&
       r.1.bucket == (if key.Some? then s.bucket + {key.value} else s.bucket) &&
       r.1.topic == s.topic + [Notice(CreatedSubject, DataCreated(id, ts, key.Some?))] &&
       r.0.body == CreatedBody(CreatedMessage, id, key))
  {
    match Validate(cfg, req)
    case Reject(response) => (response, s)
    case Pass(d) => Store(id, ts, d, s)
  }

  /** The handler as it runs against the services. */
  method HandleCreate(b: Backend, cfg: Config, req: Request, id: string, ts: string) returns (resp: Response)
    modifies b
    ensures (resp, b.Snapshot()) == Handle(cfg, req, id, ts, old(b.Snapshot()))
  {
    var checked := Validate(cfg, req);
    if checked.Reject? {
      return checked.response;
    }
    var d := checked.value;
    var imageKey: Option<string> := None;
    if IsTruthy(d.image) {
      var fetched := b.Fetch(d.image.value);
      if fetched.Err? {
        return InternalError(fetched.error);
      }
      imageKey := Some(ImageKey(id));
      var stored := b.Upload(imageKey.value);
      if stored.Err? {
        return InternalError(stored.error);
      }
    }
    var put := b.Put(id, NewRow(id, ts, d, imageKey));
    if put.Err? {
      return InternalError(put.error);
    }
    var published := b.Publish(Notice(CreatedSubject, DataCreated(id, ts, imageKey.Some?)));
    if published.Err? {
      return InternalError(published.error);
    }
    resp := Respond(201, CreatedBody(CreatedMessage, id, imageKey));
  }

  /** Every row that names an image object names one that is in the bucket. */
  ghost predicate ImagesStored(s: State) {
    forall k :: k in s.table && "imageKey" in s.table[k] && s.table[k]["imageKey"].Str? ==>
      s.table[k]["imageKey"].s in s.bucket
  }

  /** The upload comes before the row write, so creating an item never leaves a row pointing at a
      missing image, whichever call fails. */
  lemma CreateKeepsImagesStored(cfg: Config, req: Request, id: string, ts: string, s: State)
    requires ImagesStored(s)
    ensures ImagesStored(Handle(cfg, req, id, ts, s).1)
  {
    if Validate(cfg, req).Pass? {
      StoreKeepsImagesStored(id, ts, Validate(cfg, req).value, s);
    }
  }

  /** The same for the steps after validation: the row is written only after its image is. */
  lemma StoreKeepsImagesStored(id: string, ts: string, d: Draft, s: State)
    requires ImagesStored(s)
    ensures ImagesStored(Store(id, ts, d, s).1)
  {
    var t := Store(id, ts, d, s).1;
    assert s.bucket <= t.bucket;
    if s.Clear(CallsToPut(d)) {
      var row := NewRow(id, ts, d, ImageKeyFor(id, d));
      assert t.table == s.table[id := row];
      if IsTruthy(d.image) {
        assert s.Clear(2);
        assert ImageKey(id) in t.bucket;
      }
      forall k | k in t.table && "imageKey" in t.table[k] && t.table[k]["imageKey"].Str?
        ensures t.table[k]["imageKey"].s in t.bucket
      {
        if k != id {
          assert t.table[k] == s.table[k];
        }
      }
    }
  }

  /** The stored key never depends on the image URL: two requests that differ only in their
      (truthy) image store the same row. */
  lemma ImageUrlNotStored(id: string, ts: string, title: Value, price: Value, url1: Value, url2: Value)
    requires Truthy(url1) && Truthy(url2)
    ensures NewRow(id, ts, Draft(title, price, Some(url1)), ImageKeyFor(id, Draft(title, price, Some(url1))))
         == NewRow(id, ts, Draft(title, price, Some(url2)), ImageKeyFor(id, Draft(title, price, Some(url2))))
  {
  }

  /** A price of 0 is accepted: only a missing or `null` price is refused. */
  lemma ZeroPriceAccepted(cfg: Config, req: Request, raw: string)
    requires ValidateConfig(cfg).None? && Authorized(req) && raw != ""
    requires req.body == Some(Text(raw, Parsed(Record([("title", Str("Book")), ("price", Num(0.0))]))))
    ensures Validate(cfg, req) == Pass(Draft(Str("Book"), Num(0.0), None))
  {
    var f := [("title", Str("Book")), ("price", Num(0.0))];
    assert "title" != "price" by { assert "title"[0] != "price"[0]; }
    assert "title" != "image" by { assert "title"[0] != "image"[0]; }
    assert "price" != "image" by { assert "price"[0] != "image"[0]; }
    assert Lookup(f, "title") == Some(Str("Book"));
    assert Lookup(f, "price") == Some(Num(0.0));
    assert Lookup(f, "image") == None;
  }

  /** An empty title is refused even with a price. */
  lemma EmptyTitleRefused(cfg: Config, req: Request, raw: string)
    requires ValidateConfig(cfg).None? && Authorized(req) && raw != ""
    requires req.body == Some(Text(raw, Parsed(Record([("title", Str("")), ("price", Num(0.0))]))))
    ensures Validate(cfg, req) == Reject(Respond(400, Failed(FieldsRequired)))
  {
    assert Lookup([("title", Str("")), ("price", Num(0.0))], "title") == Some(Str(""));
  }
}
