/** The delete handler (src/delete-item/index.ts): after the shared checks it reads the item,
    answers 404 when it is absent, otherwise removes it and announces the removal with the
    removed row. */
module DeleteItemHandler {
  import opened Common
  import opened Http
  import opened Config
  import opened Services

  const DeletedSubject := "Item Deleted Notification"
  const DeletedMessage := "Item deleted successfully"

  /** The removal once the item is known: the delete, then the notification. */
  function Remove(id: string, existing: Item, ts: string, s: State): (r: (Response, State))
    ensures r.0.headers == CorsHeaders
    ensures r.1.failing == s.failing && r.1.bucket == s.bucket && s.log <= r.1.log
    ensures r.0.statusCode == 200 <==> s.Clear(2)
    ensures r.0.statusCode != 200 ==>
      r.0.statusCode == 500 && r.0.body.Failed? && r.0.body.error != "" && r.1.topic == s.topic
    ensures r.0.statusCode != 200 ==> s.StoppedBy(r.1) && r.0 == InternalError(s.Thrown(r.1))
    ensures r.1.table == if s.Clear(1) then s.table - {id} else s.table
    ensures r.0.statusCode == 200 ==>
      r.1.topic == s.topic + [Notice(DeletedSubject, ItemDeleted(id, ts, existing))] &&
      r.0.body == DeletedBody(DeletedMessage, id)
  {
    var (deleted, s1) := s.Delete(id);
    s.ClearNext(s1, 1);
    s.ClearNext(s1, 0);
    if deleted.Err? then (InternalError(deleted.error), s1)
    else
      var (published, s2) := s1.Publish(Notice(DeletedSubject, ItemDeleted(id, ts, existing)));
      s1.ClearNext(s2, 0);
      if published.Err? then (InternalError(published.error), s2)
      else (Respond(200, DeletedBody(DeletedMessage, id)), s2)
  }

  /** The handler once it has an id: the existence read, then 404 or the removal. */
  function Proceed(id: string, ts: string, s: State): (r: (Response, State))
    ensures r.0.headers == CorsHeaders
    ensures r.1.failing == s.failing && r.1.bucket == s.bucket && s.log <= r.1.log
    ensures r.0.statusCode in {200, 404, 500}
    ensures r.0.statusCode == 404 <==> s.Clear(1) && id !in s.table
    ensures r.0.statusCode == 404 ==> r.1 == s.Record(GetItem(id)) && r.0 == NotFound()
    ensures r.0.statusCode == 500 ==>
      r.0.body.Failed? && r.0.body.error != "" && s.StoppedBy(r.1) && r.0 == InternalError(s.Thrown(r.1))
    ensures r.0.statusCode != 200 ==> r.1.topic == s.topic
    ensures r.0.statusCode == 200 <==> id in s.table && s.Clear(3)
    ensures r.1.table == if id in s.table && s.Clear(2) then s.table - {id} else s.table
    ensures r.0.statusCode == 200 ==>
      id in s.table &&
      r.1.topic == s.topic + [Notice(DeletedSubject, ItemDeleted(id, ts, s.table[id]))] &&
      r.0.body == DeletedBody(DeletedMessage, id)
  {
    var (existing, s1) := s.Get(id);
    s.ClearNext(s1, 2);
    s.ClearNext(s1, 1);
    s.ClearNext(s1, 0);
    if existing.Err? then (InternalError(existing.error), s1)
    else if existing.value.None? then (NotFound(), s1)
    else
      var r := Remove(id, existing.value.value, ts, s1);
      s.StoppedAfter(s1, r.1);
      r
  }

  /** What the handler goes on with: configuration valid, authorized, an id of an existing item. */
  predicate Admitted(cfg: Config, req: Request, s: State) {
    ValidateConfig(cfg).None? && Authorized(req) && PathId(req).Some? && PathId(req).value in s.table
  }

  /** The handler, with `ts` the time of the notification. */
  function Handle(cfg: Config, req: Request, ts: string, s: State): (r: (Response, State))
    ensures r.0.headers == CorsHeaders
    ensures r.1.failing == s.failing && r.1.bucket == s.bucket && s.log <= r.1.log
    ensures r.0.statusCode in {200, 400, 401, 404, 500}
    ensures r.0.statusCode == 401 <==> ValidateConfig(cfg).None? && !Authorized(req)
    ensures r.0.statusCode == 400 <==> ValidateConfig(cfg).None? && Authorized(req) && PathId(req).None?
    ensures r.0.statusCode in {400, 401} ==> r.1 == s
    ensures r.0.statusCode == 401 ==> r.0 == Unauthorized()
    ensures r.0.statusCode == 400 ==> r.0 == MissingId()
    ensures r.0.statusCode == 404 <==>
      ValidateConfig(cfg).None? && Authorized(req) && PathId(req).Some? && s.Clear(1) &&
      PathId(req).value !in s.table
    ensures r.0.statusCode == 404 ==>
      r.1 == s.Record(GetItem(PathId(req).value)) && r.0 == NotFound()
    ensures r.0.statusCode == 500 ==> r.0.body.Failed? && r.0.body.error != ""
    ensures ValidateConfig(cfg).Some? ==> r == (InternalError(ValidateConfig(cfg).value), s)
    ensures r.0.statusCode == 500 && ValidateConfig(cfg).None? ==>
      s.StoppedBy(r.1) && r.0 == InternalError(s.Thrown(r.1))
    ensures r.0.statusCode != 200 ==> r.1.topic == s.topic
    ensures r.0.statusCode == 200 <==> Admitted(cfg, req, s) && s.Clear(3)
    ensures r.1.table ==
      if Admitted(cfg, req, s) && s.Clear(2) then s.table - {PathId(req).value} else s.table
    ensures r.0.statusCode == 200 ==>
      (Admitted(cfg, req, s) &&
       var id := PathId(req).value;
       r.1.topic == s.topic + [Notice(DeletedSubject, ItemDeleted(id, ts, s.table[id]))] &&
       r.0.body == DeletedBody(DeletedMessage, id))
  {
    if ValidateConfig(cfg).Some? then (InternalError(ValidateConfig(cfg).value), s)
    else if !Authorized(req) then (Unauthorized(), s)
    else if PathId(req).None? then (MissingId(), s)
    else Proceed(PathId(req).value, ts, s)
  }

  /** The handler as it runs against the services. */
  method HandleDelete(b: Backend, cfg: Config, req: Request, ts: string) returns (resp: Response)
    modifies b
    ensures (resp, b.Snapshot()) == Handle(cfg, req, ts, old(b.Snapshot()))
  {
    var thrown := ValidateConfig(cfg);
    if thrown.Some? {
      return InternalError(thrown.value);
    }
    if !Authorized(req) {
      return Unauthorized();
    }
    var itemId := PathId(req);
    if itemId.None? {
      return MissingId();
    }
    var id := itemId.value;
    var existing := b.Get(id);
    if existing.Err? {
      return InternalError(existing.error);
    }
    if existing.value.None? {
      return NotFound();
    }
    var deleted := b.Delete(id);
    if deleted.Err? {
      return InternalError(deleted.error);
    }
    var published := b.Publish(Notice(DeletedSubject, ItemDeleted(id, ts, existing.value.value)));
    if published.Err? {
      return InternalError(published.error);
    }
    resp := Respond(200, DeletedBody(DeletedMessage, id));
  }

  /** Deleting the same id again, once the first delete succeeded, finds nothing. */
  lemma SecondDeleteNotFound(cfg: Config, req: Request, ts1: string, ts2: string, s: State)
    requires Handle(cfg, req, ts1, s).0.statusCode == 200
    requires Handle(cfg, req, ts1, s).1.Clear(1)
    ensures Handle(cfg, req, ts2, Handle(cfg, req, ts1, s).1).0 == NotFound()
  {
    var s1 := Handle(cfg, req, ts1, s).1;
    assert PathId(req).value !in s1.table;
  }

  /** A delete the table refuses is reported with its own message, and nothing changes but the log. */
  lemma DeleteFailureReported(cfg: Config, req: Request, ts: string, s: State, e: Failure)
    requires Admitted(cfg, req, s) && e.message != ""
    requires s.failing == map[|s.log| + 1 := e]
    ensures Handle(cfg, req, ts, s).0 == Respond(500, Failed(e.message))
    ensures Handle(cfg, req, ts, s).1.table == s.table && Handle(cfg, req, ts, s).1.topic == s.topic
  {
    assert s.Clear(1);
    assert |s.log| + 1 in s.failing;
  }
}
