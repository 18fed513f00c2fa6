/** Creating and patching client registrations under an optional idempotency key. Sources:
    `services/clients.py`, `repositories/client_idempotency.py`, `core/idempotency.py`.
    A mutation is one transaction: the claim on the key, the client row and the stored
    response are committed together or not at all. Request payloads are compared as they
    are, not by their hash. */
module Clients {
  import opened Prelude

  type Id = nat

  datatype Client = Client(clientKey: string, displayName: string, description: Option<string>, active: bool, createdAt: int, updatedAt: int)

  datatype Response = Response(status: int, id: Id, client: Client)

  datatype Method = Post | PatchMethod
  datatype Resource = Collection | One(id: Id)

  /** The payload after normalisation; in a patch an absent field is `None`. */
  datatype Payload =
    | CreatePayload(clientKey: string, displayName: string, description: Option<string>)
    | PatchPayload(id: Id, name: Option<string>, text: Option<Option<string>>, active: Option<bool>)

  datatype RecordStatus = InProgress | Completed | OtherStatus
  datatype Record = Record(verb: Method, resource: Resource, payload: Payload, status: RecordStatus, response: Option<Response>)

  datatype State = State(clients: map<Id, Client>, records: map<string, Record>, nextId: Id)

  const EMPTY_STATE := State(map[], map[], 0)

  datatype Error = Invalid | ClientKeyConflict | IdempotencyKeyConflict | NotFound

  datatype Success = Success(response: Response, replayed: bool)

  datatype Outcome = Outcome(state: State, reply: Result<Success, Error>)

  /** A request as the service receives it. In a patch `Some(None)` is an explicit null. */
  datatype Mutation =
    | Create(clientKey: string, displayName: string, description: Option<string>, key: Option<string>, now: int)
    | Patch(id: Id, name: Option<Option<string>>, text: Option<Option<string>>, active: Option<Option<bool>>, namesClientKey: bool,
            key: Option<string>, now: int)

  // -------------------------------------------------------------- validation

  predicate KeyChar(c: char) {
    'A' <= c <= 'Z' || 'a' <= c <= 'z' || '0' <= c <= '9' || c in "._:-"
  }

  /** `validate_idempotency_key` lets the key pass. */
  predicate ValidKey(key: Option<string>) {
    key.Some? ==> 1 <= |key.value| <= 255 && forall i :: 0 <= i < |key.value| ==> KeyChar(key.value[i])
  }

  function NoneIfEmpty(text: string): Option<string> {
    if text == "" then None else Some(text)
  }

  function Trimmed(text: Option<string>): Option<string> {
    if text.Some? then NoneIfEmpty(Strip(text.value)) else None
  }

  /** The normalised payload of a request, or nothing when a field is refused. */
  function Normalized(m: Mutation): Option<Payload> {
    match m
    case Create(clientKey, displayName, description, _, _) =>
      var k, n := Strip(clientKey), Strip(displayName);
      if 1 <= |k| <= 120 && 1 <= |n| <= 255 then Some(CreatePayload(k, n, Trimmed(description))) else None
    case Patch(id, name, text, active, namesClientKey, _, _) =>
      if namesClientKey || name == Some(None) || active == Some(None) then None
      else if name.Some? && !(1 <= |Strip(name.value.value)| <= 255) then None
      else Some(PatchPayload(id, if name.Some? then Some(Strip(name.value.value)) else None,
                             if text.Some? then Some(Trimmed(text.value)) else None,
                             if active.Some? then active.value else None))
  }

  function Verb(m: Mutation): Method {
    if m.Create? then Post else PatchMethod
  }

  function Target(m: Mutation): Resource {
    if m.Create? then Collection else One(m.id)
  }

  // ------------------------------------------------------------- idempotency

  datatype Begun = Claim(records: map<string, Record>) | Replay(response: Response) | Refuse

  predicate Matches(r: Record, verb: Method, resource: Resource, payload: Payload) {
    r.verb == verb && r.resource == resource && r.payload == payload
  }

  /** `_begin_idempotency` over `begin_or_load`. */
  function Begin(records: map<string, Record>, key: string, verb: Method, resource: Resource, payload: Payload): Begun {
    if key !in records then Claim(records[key := Record(verb, resource, payload, InProgress, None)])
    else
      var r := records[key];
      if !Matches(r, verb, resource, payload) then Refuse
      else match r.status
        case Completed => if r.response.Some? then Replay(r.response.value) else Refuse
        case InProgress => Claim(records[key := r.(verb := verb, resource := resource, payload := payload)])
        case OtherStatus => Refuse
  }

  // ---------------------------------------------------------------- mutations

  predicate ClientKeyTaken(clients: map<Id, Client>, k: string) {
    exists i :: i in clients && clients[i].clientKey == k
  }

  function PatchedClient(c: Client, p: Payload, now: int): Client
    requires p.PatchPayload?
  {
    var d := c.(displayName := if p.name.Some? then p.name.value else c.displayName,
                description := if p.text.Some? then p.text.value else c.description,
                active := if p.active.Some? then p.active.value else c.active);
    if d != c then d.(updatedAt := now) else c
  }

  /** What the mutation itself does, leaving the records alone: the client row written and
      the response, or the error. */
  function Mutate(s: State, p: Payload, now: int): Result<(State, Response), Error> {
    match p
    case CreatePayload(k, n, d) =>
      if ClientKeyTaken(s.clients, k) then Err(ClientKeyConflict)
      else
        var row := Client(k, n, d, true, now, now);
        Ok((s.(clients := s.clients[s.nextId := row], nextId := s.nextId + 1), Response(201, s.nextId, row)))
    case PatchPayload(id, _, _, _) =>
      if id !in s.clients then Err(NotFound)
      else
        var row := PatchedClient(s.clients[id], p, now);
        Ok((s.(clients := s.clients[id := row]), Response(200, id, row)))
  }

  /** `create_client` and `update_client`: an error rolls everything back, the claim too. */
  function Apply(s: State, m: Mutation): Outcome {
    if !ValidKey(m.key) || Normalized(m).None? then Outcome(s, Err(Invalid))
    else
      var p := Normalized(m).value;
      var begun := if m.key.Some? then Begin(s.records, m.key.value, Verb(m), Target(m), p) else Claim(s.records);
      match begun
      case Replay(response) => Outcome(s, Ok(Success(response, true)))
      case Refuse => Outcome(s, Err(IdempotencyKeyConflict))
      case Claim(records) =>
        match Mutate(s.(records := records), p, m.now)
        case Err(e) => Outcome(s, Err(e))
        case Ok(done) =>
          var t := if m.key.Some? && m.key.value in done.0.records
                   then done.0.(records := done.0.records[m.key.value := done.0.records[m.key.value].(status := Completed, response := Some(done.1))])
                   else done.0;
          Outcome(t, Ok(Success(done.1, false)))
  }

  // ------------------------------------------------------------- the service

  class ClientService {
    var clients: map<Id, Client>
    var records: map<string, Record>
    var nextId: Id

    ghost function Contents(): State
      reads this
    {
      State(clients, records, nextId)
    }

    constructor ()
      ensures Contents() == EMPTY_STATE
    {
      clients, records, nextId := map[], map[], 0;
    }

    /** `begin_or_load`: inserts a claim or returns the row that is there. */
    method BeginOrLoad(key: string, verb: Method, resource: Resource, payload: Payload) returns (record: Record, created: bool)
      modifies this`records
      ensures key in records && record == records[key]
      ensures created <==> key !in old(records)
      ensures records == if created then old(records)[key := Record(verb, resource, payload, InProgress, None)] else old(records)
    {
      created := key !in records;
      if created {
        records := records[key := Record(verb, resource, payload, InProgress, None)];
      }
      record := records[key];
    }

    /** `_begin_idempotency`. */
    method BeginIdempotency(key: string, verb: Method, resource: Resource, payload: Payload) returns (r: Result<Option<Response>, Error>)
      modifies this`records
      ensures match Begin(old(records), key, verb, resource, payload) {
                case Claim(rs) => r == Ok(None) && records == rs
                case Replay(response) => r == Ok(Some(response)) && records == old(records)
                case Refuse => r == Err(IdempotencyKeyConflict) && records == old(records)
              }
    {
      var record, created := BeginOrLoad(key, verb, resource, payload);
      if created {
        return Ok(None);
      }
      if record.verb != verb || record.resource != resource || record.payload != payload {
        return Err(IdempotencyKeyConflict);
      }
      if record.status.Completed? {
        if record.response.None? {
          return Err(IdempotencyKeyConflict);
        }
        return Ok(record.response);
      }
      if record.status.InProgress? {
        records := records[key := record.(verb := verb, resource := resource, payload := payload)];
        return Ok(None);
      }
      r := Err(IdempotencyKeyConflict);
    }

    /** `complete`. */
    method Complete(key: string, response: Response)
      requires key in records
      modifies this`records
      ensures records == old(records)[key := old(records)[key].(status := Completed, response := Some(response))]
    {
      records := records[key := records[key].(status := Completed, response := Some(response))];
    }

    /** The rollback of the session. */
    method Rollback(ghost was: State, clients0: map<Id, Client>, records0: map<string, Record>, nextId0: Id)
      requires was == State(clients0, records0, nextId0)
      modifies this
      ensures Contents() == was
    {
      clients, records, nextId := clients0, records0, nextId0;
    }

    method CreateClient(clientKey: string, displayName: string, description: Option<string>, key: Option<string>, now: int)
      returns (reply: Result<Success, Error>)
      modifies this
      ensures Outcome(Contents(), reply) == Apply(old(Contents()), Create(clientKey, displayName, description, key, now))
    {
      hide Strip, ClientKeyTaken;
      var clients0, records0, nextId0 := clients, records, nextId;
      if !ValidKey(key) {
        return Err(Invalid);
      }
      var k, n, d := Strip(clientKey), Strip(displayName), Trimmed(description);
      if k == "" || |k| > 120 || n == "" || |n| > 255 {
        return Err(Invalid);
      }
      var payload := CreatePayload(k, n, d);
      if key.Some? {
        var resolved := BeginIdempotency(key.value, Post, Collection, payload);
        if resolved.Err? {
          return Err(resolved.error);
        }
        if resolved.value.Some? {
          return Ok(Success(resolved.value.value, true));
        }
      }
      if ClientKeyTaken(clients, k) {
        Rollback(old(Contents()), clients0, records0, nextId0);
        return Err(ClientKeyConflict);
      }
      var row := Client(k, n, d, true, now, now);
      var response := Response(201, nextId, row);
      clients := clients[nextId := row];
      nextId := nextId + 1;
      if key.Some? {
        Complete(key.value, response);
      }
      reply := Ok(Success(response, false));
    }

    method UpdateClient(id: Id, name: Option<Option<string>>, text: Option<Option<string>>, active: Option<Option<bool>>,
                        namesClientKey: bool, key: Option<string>, now: int) returns (reply: Result<Success, Error>)
      modifies this
      ensures Outcome(Contents(), reply) == Apply(old(Contents()), Patch(id, name, text, active, namesClientKey, key, now))
    {
      hide Strip, Trimmed;
      var clients0, records0, nextId0 := clients, records, nextId;
      if namesClientKey || !ValidKey(key) {
        return Err(Invalid);
      }
      var payload := PatchPayload(id, None, None, None);
      if name.Some? {
        if name.value.None? || Strip(name.value.value) == "" || |Strip(name.value.value)| > 255 {
          return Err(Invalid);
        }
        payload := payload.(name := Some(Strip(name.value.value)));
      }
      if text.Some? {
        payload := payload.(text := Some(Trimmed(text.value)));
      }
      if active.Some? {
        if active.value.None? {
          return Err(Invalid);
        }
        payload := payload.(active := active.value);
      }
      if key.Some? {
        var resolved := BeginIdempotency(key.value, PatchMethod, One(id), payload);
        if resolved.Err? {
          return Err(resolved.error);
        }
        if resolved.value.Some? {
          return Ok(Success(resolved.value.value, true));
        }
      }
      if id !in clients {
        Rollback(old(Contents()), clients0, records0, nextId0);
        return Err(NotFound);
      }
      var row := UpdateRow(clients[id], payload, now);
      clients := clients[id := row];
      var response := Response(200, id, row);
      if key.Some? {
        Complete(key.value, response);
      }
      reply := Ok(Success(response, false));
    }
  }

  /** The field by field update of a locked row; the time moves only if a field did. */
  method UpdateRow(c: Client, p: Payload, now: int) returns (row: Client)
    requires p.PatchPayload?
    ensures row == PatchedClient(c, p, now)
  {
    row := c;
    var changed := false;
    if p.name.Some? && row.displayName != p.name.value {
      row := row.(displayName := p.name.value);
      changed := true;
    }
    if p.text.Some? && row.description != p.text.value {
      row := row.(description := p.text.value);
      changed := true;
    }
    if p.active.Some? && row.active != p.active.value {
      row := row.(active := p.active.value);
      changed := true;
    }
    if changed {
      row := row.(updatedAt := now);
    }
  }
}
