/** Abstract stand-ins for the managed services the handlers call: the item table (a map keyed
    by item id, with the partial-update semantics of its SET expressions), the object bucket (a
    set of keys), the notification topic (an append-only sequence of notices), the image
    download, and a log of every call attempted. Which calls throw, and with what error, is
    given by the environment (`failing`, keyed by the call's position in the log). */
module Services {
  import opened Common

  /** The JSON message published on each mutation. */
  datatype Event =
    | DataCreated(id: string, timestamp: string, hasImage: bool)
    | ItemUpdated(id: string, timestamp: string, updatedFields: seq<string>)
    | ItemDeleted(id: string, timestamp: string, deletedItem: Item)

  /** One publication on the topic: its subject line and its message. */
  datatype Notice = Notice(subject: string, event: Event)

  /** The left side of a SET action: an attribute named outright, or a `#name` placeholder. */
  datatype NameRef = Attribute(name: string) | NameToken(token: string)

  /** `target = :value` in an update expression. */
  datatype SetAction = SetAction(target: NameRef, valueToken: string)

  datatype ScanParams = ScanParams(limit: Option<JsNumber>, exclusiveStartKey: Option<Value>)

  /** What the table answers to a scan: `Items` and `LastEvaluatedKey`, either possibly absent. */
  datatype ScanPage = ScanPage(items: Option<seq<Item>>, lastEvaluatedKey: Option<Item>)

  /** A call made to a service, with its arguments. */
  datatype Call =
    | GetItem(id: string)
    | PutItem(id: string, item: Item)
    | UpdateItem(id: string, actions: seq<SetAction>, names: Option<map<string, string>>,
                 values: map<string, Value>)
    | DeleteItem(id: string)
    | ScanItems(params: ScanParams)
    | FetchImage(url: Value)
    | PutObject(key: string)
    | PublishNotice(notice: Notice)

  // ---------------------------------------------------------------- update expressions

  function Resolve(ref: NameRef, names: map<string, string>): Option<string> {
    match ref
    case Attribute(n) => Some(n)
    case NameToken(t) => if t in names then Some(names[t]) else None
  }

  predicate Resolvable(actions: seq<SetAction>, names: map<string, string>) {
    forall a :: a in actions ==> Resolve(a.target, names).Some?
  }

  predicate ValuesDefined(actions: seq<SetAction>, values: map<string, Value>) {
    forall a :: a in actions ==> a.valueToken in values
  }

  predicate NamesUsed(actions: seq<SetAction>, names: map<string, string>) {
    forall t :: t in names ==> exists a :: a in actions && a.target == NameToken(t)
  }

  predicate ValuesUsed(actions: seq<SetAction>, values: map<string, Value>) {
    forall t :: t in values ==> exists a :: a in actions && a.valueToken == t
  }

  /** The attributes the actions write, in order. */
  function Targets(actions: seq<SetAction>, names: map<string, string>): (ts: seq<string>)
    requires Resolvable(actions, names)
    ensures |ts| == |actions|
    ensures forall i :: 0 <= i < |actions| ==> Some(ts[i]) == Resolve(actions[i].target, names)
  {
    seq(|actions|, i requires 0 <= i < |actions| => Resolve(actions[i].target, names).value)
  }

  predicate NoDuplicates(s: seq<string>) {
    forall i, j :: 0 <= i < j < |s| ==> s[i] != s[j]
  }

  /** The row after the actions are applied one after the other. */
  function Assign(row: Item, actions: seq<SetAction>, names: map<string, string>, values: map<string, Value>): Item
    requires Resolvable(actions, names) && ValuesDefined(actions, values)
  {
    if actions == [] then row
    else
      var last := actions[|actions| - 1];
      Assign(row, actions[..|actions| - 1], names, values)[Resolve(last.target, names).value := values[last.valueToken]]
  }

  function Invalid(message: string): Failure {
    Failure("ValidationException", message)
  }

  const EmptyAttributeName := "ExpressionAttributeNames contains invalid value: Empty attribute name"

  /** How the table applies `SET` actions with `ExpressionAttributeNames` (absent or a map) and
      `ExpressionAttributeValues` to a row, including the requests it rejects. */
  function ApplySet(row: Item, actions: seq<SetAction>, names: Option<map<string, string>>,
                    values: map<string, Value>): (r: Result<Item>)
    ensures r.Ok? ==> names != Some(map[])
    ensures names.Some? && "" in names.value.Values ==> r.Err?
  {
    var known := if names.Some? then names.value else map[];
    if names == Some(map[]) then Err(Invalid("ExpressionAttributeNames must not be empty"))
    else if "" in known.Values then Err(Invalid(EmptyAttributeName))
    else if !Resolvable(actions, known) then
      Err(Invalid("An expression attribute name used in the document path is not defined"))
    else if !ValuesDefined(actions, values) then
      Err(Invalid("An expression attribute value used in expression is not defined"))
    else if !NamesUsed(actions, known) then
      Err(Invalid("Value provided in ExpressionAttributeNames unused in expressions"))
    else if !ValuesUsed(actions, values) then
      Err(Invalid("Value provided in ExpressionAttributeValues unused in expressions"))
    else if !NoDuplicates(Targets(actions, known)) then
      Err(Invalid("Two document paths overlap with each other"))
    else Ok(Assign(row, actions, known, values))
  }

  // ---------------------------------------------------------------- service state

  datatype State = State(
    table: map<string, Item>,
    bucket: set<string>,
    topic: seq<Notice>,
    log: seq<Call>,
    failing: map<nat, Failure>)
  {
    /** The error the next call throws, if the environment makes it fail. */
    function NextFailure(): Option<Failure> {
      if |log| in failing then Some(failing[|log|]) else None
    }

    function Record(c: Call): State {
      this.(log := log + [c])
    }

    /** None of the next `n` calls throws. */
    predicate Clear(n: nat) {
      forall k :: |log| <= k < |log| + n ==> k !in failing
    }

    /** The next `n + 1` calls go through when the next one does and, once it is logged in `t`,
        the `n` after it do. */
    lemma ClearNext(t: State, n: nat)
      requires |t.log| == |log| + 1 && t.failing == failing
      ensures Clear(n + 1) <==> NextFailure().None? && t.Clear(n)
    {
      if NextFailure().None? && t.Clear(n) {
        forall k | |log| <= k < |log| + n + 1
          ensures k !in failing
        {
          if k > |log| {
            assert |t.log| <= k < |t.log| + n;
          }
        }
      }
    }

    /** The last call logged in `t` is the first call since this state to throw: the one whose
        error a handler that stops at the first failure reports. */
    predicate StoppedBy(t: State) {
      |log| < |t.log| && |t.log| - 1 in failing && Clear(|t.log| - 1 - |log|)
    }

    /** The error of the last call logged in `t`, when that call is the first since this state to
        throw. */
    function Thrown(t: State): (e: Failure)
      requires StoppedBy(t)
      ensures |t.log| - 1 in failing && e == failing[|t.log| - 1]
    {
      failing[|t.log| - 1]
    }

    /** After a call that went through (logged in `t`), the first failure counted from here is
        the first failure counted from `t`. */
    lemma StoppedAfter(t: State, u: State)
      requires |t.log| == |log| + 1 && t.failing == failing && NextFailure().None?
      requires |t.log| <= |u.log|
      ensures StoppedBy(u) <==> t.StoppedBy(u)
    {
      if |t.log| < |u.log| {
        ClearNext(t, |u.log| - 1 - |t.log|);
      }
    }

    function Get(id: string): (Result<Option<Item>>, State) {
      var s := Record(GetItem(id));
      match NextFailure()
      case Some(e) => (Err(e), s)
      case None => (Ok(if id in table then Some(table[id]) else None), s)
    }

    function Put(id: string, item: Item): (Result<()>, State) {
      var s := Record(PutItem(id, item));
      match NextFailure()
      case Some(e) => (Err(e), s)
      case None => (Ok(()), s.(table := table[id := item]))
    }

    /** An update of an absent id creates the row from its key. */
    function Update(id: string, actions: seq<SetAction>, names: Option<map<string, string>>,
                    values: map<string, Value>): (Result<()>, State)
    {
      var s := Record(UpdateItem(id, actions, names, values));
      match NextFailure()
      case Some(e) => (Err(e), s)
      case None =>
        var row := if id in table then table[id] else map["id" := Str(id)];
        match ApplySet(row, actions, names, values)
        case Err(e) => (Err(e), s)
        case Ok(updated) => (Ok(()), s.(table := table[id := updated]))
    }

    function Delete(id: string): (Result<()>, State) {
      var s := Record(DeleteItem(id));
      match NextFailure()
      case Some(e) => (Err(e), s)
      case None => (Ok(()), s.(table := table - {id}))
    }

    /** A scan; `page` is what the table answers (its order and paging are the table's own). */
    function Scan(params: ScanParams, page: ScanPage): (Result<ScanPage>, State) {
      var s := Record(ScanItems(params));
      match NextFailure()
      case Some(e) => (Err(e), s)
      case None => (Ok(page), s)
    }

    function Fetch(url: Value): (Result<()>, State) {
      var s := Record(FetchImage(url));
      match NextFailure()
      case Some(e) => (Err(e), s)
      case None => (Ok(()), s)
    }

    function Upload(key: string): (Result<()>, State) {
      var s := Record(PutObject(key));
      match NextFailure()
      case Some(e) => (Err(e), s)
      case None => (Ok(()), s.(bucket := bucket + {key}))
    }

    function Publish(n: Notice): (Result<()>, State) {
      var s := Record(PublishNotice(n));
      match NextFailure()
      case Some(e) => (Err(e), s)
      case None => (Ok(()), s.(topic := topic + [n]))
    }
  }

  /** The services as the handlers change them in place. */
  class Backend {
    var table: map<string, Item>
    var bucket: set<string>
    var topic: seq<Notice>
    var log: seq<Call>
    var failing: map<nat, Failure>

    function Snapshot(): State
      reads this
    {
      State(table, bucket, topic, log, failing)
    }

    constructor (s: State)
      ensures Snapshot() == s
    {
      table, bucket, topic, log, failing := s.table, s.bucket, s.topic, s.log, s.failing;
    }

    /** Logs the call and returns the error it throws, if any. */
    method Attempt(c: Call) returns (thrown: Option<Failure>)
      modifies this
      ensures thrown == old(Snapshot()).NextFailure()
      ensures Snapshot() == old(Snapshot()).Record(c)
    {
      thrown := if |log| in failing then Some(failing[|log|]) else None;
      log := log + [c];
    }

    method Get(id: string) returns (r: Result<Option<Item>>)
      modifies this
      ensures (r, Snapshot()) == old(Snapshot()).Get(id)
    {
      var thrown := Attempt(GetItem(id));
      if thrown.Some? {
        return Err(thrown.value);
      }
      r := Ok(if id in table then Some(table[id]) else None);
    }

    method Put(id: string, item: Item) returns (r: Result<()>)
      modifies this
      ensures (r, Snapshot()) == old(Snapshot()).Put(id, item)
    {
      var thrown := Attempt(PutItem(id, item));
      if thrown.Some? {
        return Err(thrown.value);
      }
      table := table[id := item];
      r := Ok(());
    }

    method Update(id: string, actions: seq<SetAction>, names: Option<map<string, string>>,
                  values: map<string, Value>) returns (r: Result<()>)
      modifies this
      ensures (r, Snapshot()) == old(Snapshot()).Update(id, actions, names, values)
    {
      var thrown := Attempt(UpdateItem(id, actions, names, values));
      if thrown.Some? {
        return Err(thrown.value);
      }
      var row := if id in table then table[id] else map["id" := Str(id)];
      var applied := ApplySet(row, actions, names, values);
      if applied.Err? {
        return Err(applied.error);
      }
      table := table[id := applied.value];
      r := Ok(());
    }

    method Delete(id: string) returns (r: Result<()>)
      modifies this
      ensures (r, Snapshot()) == old(Snapshot()).Delete(id)
    {
      var thrown := Attempt(DeleteItem(id));
      if thrown.Some? {
        return Err(thrown.value);
      }
      table := table - {id};
      r := Ok(());
    }

    method Scan(params: ScanParams, page: ScanPage) returns (r: Result<ScanPage>)
      modifies this
      ensures (r, Snapshot()) == old(Snapshot()).Scan(params, page)
    {
      var thrown := Attempt(ScanItems(params));
      if thrown.Some? {
        return Err(thrown.value);
      }
      r := Ok(page);
    }

    method Fetch(url: Value) returns (r: Result<()>)
      modifies this
      ensures (r, Snapshot()) == old(Snapshot()).Fetch(url)
    {
      var thrown := Attempt(FetchImage(url));
      if thrown.Some? {
        return Err(thrown.value);
      }
      r := Ok(());
    }

    method Upload(key: string) returns (r: Result<()>)
      modifies this
      ensures (r, Snapshot()) == old(Snapshot()).Upload(key)
    {
      var thrown := Attempt(PutObject(key));
      if thrown.Some? {
        return Err(thrown.value);
      }
      bucket := bucket + {key};
      r := Ok(());
    }

    method Publish(n: Notice) returns (r: Result<()>)
      modifies this
      ensures (r, Snapshot()) == old(Snapshot()).Publish(n)
    {
      var thrown := Attempt(PublishNotice(n));
      if thrown.Some? {
        return Err(thrown.value);
      }
      topic := topic + [n];
      r := Ok(());
    }
  }
}
