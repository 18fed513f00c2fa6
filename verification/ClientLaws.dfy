/** Exactly-once: what retries under an idempotency key do to whole histories of client
    mutations. */
module ClientLaws {
  import opened Prelude
  import opened Clients

  // ------------------------------------------------------- what requests mean

  predicate Named(text: string, most: nat) {
    1 <= |Strip(text)| <= most
  }

  /** The fields may be stored: names neither blank nor too long, nothing set to null that
      must have a value, and the client key not touched by a patch. */
  predicate FieldsFit(m: Mutation) {
    match m
    case Create(clientKey, displayName, _, _, _) => Named(clientKey, 120) && Named(displayName, 255)
    case Patch(_, name, _, active, namesClientKey, _, _) =>
      && !namesClientKey
      && (name.Some? ==> name.value.Some? && Named(name.value.value, 255))
      && (active.Some? ==> active.value.Some?)
  }

  predicate KeyFits(key: Option<string>) {
    key.Some? ==>
      && 1 <= |key.value| <= 255
      && forall i :: 0 <= i < |key.value| ==>
           var c := key.value[i]; 'A' <= c <= 'Z' || 'a' <= c <= 'z' || '0' <= c <= '9' || c == '.' || c == '_' || c == ':' || c == '-'
  }

  /** The row a description is stored as: stripped, and nothing if that leaves nothing. */
  predicate Describes(stored: Option<string>, text: Option<string>) {
    if text.Some? && Strip(text.value) != "" then stored == Some(Strip(text.value)) else stored.None?
  }

  /** A request that is new and may be answered is refused exactly for these reasons, in this
      order. */
  lemma RefusedIff(s: State, m: Mutation)
    requires m.key.None? || m.key.value !in s.records
    ensures Apply(s, m).reply.Ok? <==>
              && FieldsFit(m) && KeyFits(m.key)
              && (m.Create? ==> forall i :: i in s.clients ==> s.clients[i].clientKey != Strip(m.clientKey))
              && (m.Patch? ==> m.id in s.clients)
    ensures Apply(s, m).reply == Err(Invalid) <==> !FieldsFit(m) || !KeyFits(m.key)
    ensures Apply(s, m).reply == Err(NotFound) <==> FieldsFit(m) && KeyFits(m.key) && m.Patch? && m.id !in s.clients
    ensures Apply(s, m).reply == Err(ClientKeyConflict) <==>
              FieldsFit(m) && KeyFits(m.key) && m.Create? && exists i :: i in s.clients && s.clients[i].clientKey == Strip(m.clientKey)
  {
    KeyFitsIff(m.key);
    hide Strip, ValidKey, KeyFits;
  }

  lemma KeyFitsIff(key: Option<string>)
    ensures ValidKey(key) <==> KeyFits(key)
  {
    if key.Some? {
      assert forall i :: 0 <= i < |key.value| ==> (key.value[i] in "._:-" <==> key.value[i] in ['.', '_', ':', '-']);
    }
  }

  /** A creation that succeeds adds one client under the next identifier, active, with the
      requested texts stripped, and answers it. */
  lemma CreatedClient(s: State, m: Mutation)
    requires m.Create? && Fresh(Apply(s, m).reply)
    ensures var t, response := Apply(s, m).state, Apply(s, m).reply.value.response;
            && response.status == 201 && response.id == s.nextId && t.nextId == s.nextId + 1
            && t.clients == s.clients[s.nextId := response.client]
            && response.client.clientKey == Strip(m.clientKey) && response.client.displayName == Strip(m.displayName)
            && Describes(response.client.description, m.description)
            && response.client.active && response.client.createdAt == response.client.updatedAt == m.now
  {
    hide Strip, ValidKey, ClientKeyTaken;
  }

  /** A patch that succeeds gives each field it names the requested value, keeps the others,
      the client key and the time of creation, moves the time of change exactly when a field
      has changed, and answers the row. */
  lemma PatchedRow(s: State, m: Mutation)
    requires m.Patch? && Fresh(Apply(s, m).reply)
    ensures m.id in s.clients && FieldsFit(m)
    ensures var t, response := Apply(s, m).state, Apply(s, m).reply.value.response;
            var was, row := s.clients[m.id], response.client;
            && response.status == 200 && response.id == m.id && t.nextId == s.nextId && t.clients == s.clients[m.id := row]
            && row.displayName == (if m.name.Some? then Strip(m.name.value.value) else was.displayName)
            && (if m.text.Some? then Describes(row.description, m.text.value) else row.description == was.description)
            && row.active == (if m.active.Some? then m.active.value.value else was.active)
            && row.clientKey == was.clientKey && row.createdAt == was.createdAt
            && row.updatedAt == (if row.displayName == was.displayName && row.description == was.description && row.active == was.active
                                 then was.updatedAt else m.now)
  {
    hide Strip, ValidKey;
  }

  // ----------------------------------------------------------------- histories

  function Run(s: State, ms: seq<Mutation>): State
    decreases |ms|
  {
    if ms == [] then s else Run(Apply(s, ms[0]).state, ms[1..])
  }

  function Replies(s: State, ms: seq<Mutation>): (r: seq<Result<Success, Error>>)
    ensures |r| == |ms|
    decreases |ms|
  {
    if ms == [] then [] else [Apply(s, ms[0]).reply] + Replies(Apply(s, ms[0]).state, ms[1..])
  }

  lemma {:induction false} RunAppend(s: State, xs: seq<Mutation>, ys: seq<Mutation>)
    ensures Run(s, xs + ys) == Run(Run(s, xs), ys)
    ensures Replies(s, xs + ys) == Replies(s, xs) + Replies(Run(s, xs), ys)
    decreases |xs|
  {
    hide Apply;
    if xs == [] {
      assert xs + ys == ys;
    } else {
      assert (xs + ys)[1..] == xs[1..] + ys;
      RunAppend(Apply(s, xs[0]).state, xs[1..], ys);
    }
  }

  lemma {:induction false} ReplyAt(s: State, ms: seq<Mutation>, j: nat)
    requires j < |ms|
    ensures Replies(s, ms)[j] == Apply(Run(s, ms[..j]), ms[j]).reply
    decreases |ms|
  {
    hide Apply;
    if j > 0 {
      assert ms[..j][1..] == ms[1..][..j - 1];
      ReplyAt(Apply(s, ms[0]).state, ms[1..], j - 1);
    }
  }

  // ----------------------------------------------------------------- invariant

  /** Every committed record is complete and holds a response. */
  ghost predicate Settled(records: map<string, Record>) {
    forall k :: k in records ==> records[k].status.Completed? && records[k].response.Some?
  }

  ghost predicate Inv(s: State) {
    && Settled(s.records)
    && (forall i :: i in s.clients ==> i < s.nextId)
    && (forall i, j :: i in s.clients && j in s.clients && s.clients[i].clientKey == s.clients[j].clientKey ==> i == j)
  }

  lemma EmptyIsGood()
    ensures Inv(EMPTY_STATE)
  {
  }

  lemma StepKeeps(s: State, m: Mutation)
    requires Inv(s)
    ensures Inv(Apply(s, m).state)
  {
    hide Normalized, ValidKey;
  }

  lemma {:induction false} RunKeeps(s: State, ms: seq<Mutation>)
    requires Inv(s)
    ensures Inv(Run(s, ms))
    decreases |ms|
  {
    hide Inv, Apply;
    if ms != [] {
      StepKeeps(s, ms[0]);
      RunKeeps(Apply(s, ms[0]).state, ms[1..]);
    }
  }

  /** A refused request leaves no trace: neither a client, nor a change, nor its claim. */
  lemma ErrorsLeaveNoTrace(s: State, m: Mutation)
    ensures Apply(s, m).reply.Err? ==> Apply(s, m).state == s
  {
  }

  /** Whatever history: no claim survives unfinished, so the branches for a claim left IN
      PROGRESS, for another status and for a completed record without response are never
      taken: a known key either replays or is refused as bound to something else. */
  lemma {:induction false} NoOrphanedClaims(ms: seq<Mutation>, key: string, verb: Method, resource: Resource, payload: Payload)
    ensures var s := Run(EMPTY_STATE, ms);
            key in s.records ==>
              && s.records[key].status.Completed? && s.records[key].response.Some?
              && Begin(s.records, key, verb, resource, payload) ==
                 (if Matches(s.records[key], verb, resource, payload) then Replay(s.records[key].response.value) else Refuse)
  {
    RunKeeps(EMPTY_STATE, ms);
    hide Run, Apply;
  }

  // -------------------------------------------------------------- exactly once

  /** The same key, method, resource and normalised payload. */
  predicate SameIntent(a: Mutation, b: Mutation) {
    && a.key.Some? && a.key == b.key && Verb(a) == Verb(b) && Target(a) == Target(b)
    && Normalized(a).Some? && Normalized(a) == Normalized(b)
  }

  predicate Fresh(r: Result<Success, Error>) {
    r.Ok? && !r.value.replayed
  }

  predicate Replayed(r: Result<Success, Error>) {
    r.Ok? && r.value.replayed
  }

  /** The record a successful keyed mutation leaves. */
  predicate Recorded(s: State, m: Mutation, response: Response) {
    && m.key.Some? && m.key.value in s.records && Normalized(m).Some?
    && s.records[m.key.value] == Record(Verb(m), Target(m), Normalized(m).value, Completed, Some(response))
  }

  lemma FreshIsRecorded(s: State, m: Mutation)
    requires Inv(s) && m.key.Some? && Fresh(Apply(s, m).reply)
    ensures Recorded(Apply(s, m).state, m, Apply(s, m).reply.value.response)
    ensures m.key.value !in s.records
  {
    hide ValidKey, Normalized;
  }

  lemma StepKeepsRecords(s: State, m: Mutation, k: string)
    requires Inv(s)
    ensures k in s.records ==> k in Apply(s, m).state.records && Apply(s, m).state.records[k] == s.records[k]
    ensures k !in s.records && k in Apply(s, m).state.records ==> m.key == Some(k) && Fresh(Apply(s, m).reply)
  {
    hide ValidKey, Normalized;
  }

  /** A committed record never changes again. */
  lemma {:induction false} RecordsNeverChange(s: State, ms: seq<Mutation>, k: string)
    requires Inv(s) && k in s.records
    ensures k in Run(s, ms).records && Run(s, ms).records[k] == s.records[k]
    decreases |ms|
  {
    hide Inv, Apply;
    if ms != [] {
      StepKeeps(s, ms[0]);
      StepKeepsRecords(s, ms[0], k);
      RecordsNeverChange(Apply(s, ms[0]).state, ms[1..], k);
    }
  }

  lemma RecordedReplays(s: State, m: Mutation, retry: Mutation, response: Response)
    requires Recorded(s, m, response) && SameIntent(m, retry) && ValidKey(m.key)
    ensures Apply(s, retry) == Outcome(s, Ok(Success(response, true))) && Replayed(Apply(s, retry).reply)
  {
    hide ValidKey, Normalized;
  }

  lemma FreshHasValidKey(s: State, m: Mutation)
    requires Apply(s, m).reply.Ok?
    ensures ValidKey(m.key) && Normalized(m).Some?
  {
  }

  /** A retry anywhere after the success of the same intent, whatever happened in between,
      is answered with the stored response and changes nothing: leaving it out gives the same
      clients, the same records and the same replies to everything else. */
  lemma {:induction false} RetryIsInvisible(s: State, pre: seq<Mutation>, m: Mutation, mid: seq<Mutation>, retry: Mutation, post: seq<Mutation>)
    requires Inv(s) && Fresh(Apply(Run(s, pre), m).reply) && SameIntent(m, retry)
    ensures var whole, without := pre + [m] + mid + [retry] + post, pre + [m] + mid + post;
            && Run(s, whole) == Run(s, without)
            && Replies(s, whole) == Replies(s, pre + [m] + mid)
                                    + [Ok(Success(Apply(Run(s, pre), m).reply.value.response, true))]
                                    + Replies(Run(s, pre + [m] + mid), post)
            && Replies(s, without) == Replies(s, pre + [m] + mid) + Replies(Run(s, pre + [m] + mid), post)
  {
    hide Inv, Apply, SameIntent, Recorded, Fresh, ValidKey;
    var before := Run(s, pre);
    var after := Apply(before, m).state;
    var response := KeptRecord(s, pre, m, mid, retry);
    var upTo := pre + [m] + mid;
    RunAppend(s, upTo, [retry] + post);
    RunAppend(Run(s, upTo), [retry], post);
    RunAppend(s, upTo, post);
    assert upTo + [retry] + post == upTo + ([retry] + post);
    RecordedReplays(Run(s, upTo), m, retry, response);
    RunOne(Run(s, upTo), retry);
  }

  lemma {:induction false} RunOne(s: State, m: Mutation)
    ensures Run(s, [m]) == Apply(s, m).state && Replies(s, [m]) == [Apply(s, m).reply]
  {
    hide Apply;
    assert [m][1..] == [];
  }

  lemma KeptRecord(s: State, pre: seq<Mutation>, m: Mutation, mid: seq<Mutation>, retry: Mutation) returns (response: Response)
    requires Inv(s) && Fresh(Apply(Run(s, pre), m).reply) && SameIntent(m, retry)
    ensures response == Apply(Run(s, pre), m).reply.value.response
    ensures Recorded(Run(s, pre + [m] + mid), m, response) && ValidKey(m.key)
  {
    hide Inv, Apply, ValidKey, Normalized;
    var before := Run(s, pre);
    response := Apply(before, m).reply.value.response;
    RunKeeps(s, pre);
    FreshIsRecorded(before, m);
    FreshHasValidKey(before, m);
    StepKeeps(before, m);
    RunOne(before, m);
    RunAppend(s, pre, [m]);
    RunAppend(s, pre + [m], mid);
    RecordsNeverChange(Apply(before, m).state, mid, m.key.value);
  }

  /** The history without its replayed requests. */
  function WithoutReplays(s: State, ms: seq<Mutation>): seq<Mutation>
    decreases |ms|
  {
    if ms == [] then []
    else (if Replayed(Apply(s, ms[0]).reply) then [] else [ms[0]]) + WithoutReplays(Apply(s, ms[0]).state, ms[1..])
  }

  function NotReplayed(rs: seq<Result<Success, Error>>): seq<Result<Success, Error>> {
    if rs == [] then [] else (if Replayed(rs[0]) then [] else [rs[0]]) + NotReplayed(rs[1..])
  }

  lemma ReplayChangesNothing(s: State, m: Mutation)
    requires Replayed(Apply(s, m).reply)
    ensures Apply(s, m).state == s
  {
  }

  /** Deleting every replayed request from a history gives the same final tables, and the
      same reply to each request that is left. */
  lemma {:induction false} ExactlyOnce(s: State, ms: seq<Mutation>)
    ensures Run(s, WithoutReplays(s, ms)) == Run(s, ms)
    ensures Replies(s, WithoutReplays(s, ms)) == NotReplayed(Replies(s, ms))
    decreases |ms|
  {
    hide Apply, Replayed;
    if ms != [] {
      var o, rest := Apply(s, ms[0]), ms[1..];
      ExactlyOnce(o.state, rest);
      assert Replies(s, ms)[1..] == Replies(o.state, rest);
      if Replayed(o.reply) {
        ReplayChangesNothing(s, ms[0]);
        assert WithoutReplays(s, ms) == WithoutReplays(o.state, rest);
      } else {
        assert WithoutReplays(s, ms)[1..] == WithoutReplays(o.state, rest);
      }
    }
  }

  /** In a history from the empty tables a request is replayed if and only if an earlier
      request with the same key, method, resource and payload succeeded. */
  lemma {:induction false} ReplayedIff(ms: seq<Mutation>, j: nat)
    requires j < |ms|
    ensures Replayed(Replies(EMPTY_STATE, ms)[j]) <==>
              exists i :: 0 <= i < j && Fresh(Replies(EMPTY_STATE, ms)[i]) && SameIntent(ms[i], ms[j])
  {
    hide Apply, Inv, SameIntent, Fresh, Replayed, Recorded, ValidKey;
    ReplyAt(EMPTY_STATE, ms, j);
    if Replayed(Replies(EMPTY_STATE, ms)[j]) {
      HasOrigin(ms, j);
    }
    forall i | 0 <= i < j && Fresh(Replies(EMPTY_STATE, ms)[i]) && SameIntent(ms[i], ms[j])
      ensures Replayed(Replies(EMPTY_STATE, ms)[j])
    {
      OriginReplays(ms, i, j);
    }
  }

  lemma {:induction false} OriginReplays(ms: seq<Mutation>, i: nat, j: nat)
    requires i < j < |ms| && Fresh(Replies(EMPTY_STATE, ms)[i]) && SameIntent(ms[i], ms[j])
    ensures Replayed(Replies(EMPTY_STATE, ms)[j])
  {
    hide *;
    EmptyIsGood();
    ReplyAt(EMPTY_STATE, ms, i);
    ReplyAt(EMPTY_STATE, ms, j);
    assert ms[..j] == ms[..i] + [ms[i]] + ms[i + 1..j];
    var response := KeptRecord(EMPTY_STATE, ms[..i], ms[i], ms[i + 1..j], ms[j]);
    RecordedReplays(Run(EMPTY_STATE, ms[..j]), ms[i], ms[j], response);
  }

  /** Where a record comes from: the first success under its key. */
  lemma {:induction false} RecordHasOrigin(ms: seq<Mutation>, n: nat, k: string) returns (i: nat)
    requires n <= |ms| && k in Run(EMPTY_STATE, ms[..n]).records
    ensures i < n && Fresh(Replies(EMPTY_STATE, ms)[i]) && ms[i].key == Some(k)
    ensures exists response :: Recorded(Run(EMPTY_STATE, ms[..n]), ms[i], response)
    decreases n
  {
    hide Apply, Recorded;
    assert ms[..0] == [];
    var before := Run(EMPTY_STATE, ms[..n - 1]);
    EmptyIsGood();
    RunKeeps(EMPTY_STATE, ms[..n - 1]);
    assert ms[..n] == ms[..n - 1] + [ms[n - 1]];
    RunAppend(EMPTY_STATE, ms[..n - 1], [ms[n - 1]]);
    RunOne(before, ms[n - 1]);
    StepKeepsRecords(before, ms[n - 1], k);
    if k in before.records {
      i := RecordHasOrigin(ms, n - 1, k);
      RecordedStays(before, Run(EMPTY_STATE, ms[..n]), ms[i], k);
    } else {
      i := n - 1;
      ReplyAt(EMPTY_STATE, ms, i);
      FreshIsRecorded(before, ms[i]);
      assert Recorded(Run(EMPTY_STATE, ms[..n]), ms[i], Apply(before, ms[i]).reply.value.response);
    }
  }

  lemma RecordedStays(s: State, t: State, m: Mutation, k: string)
    requires m.key == Some(k) && k in s.records && k in t.records && t.records[k] == s.records[k]
    requires exists response :: Recorded(s, m, response)
    ensures exists response :: Recorded(t, m, response)
  {
    var response :| Recorded(s, m, response);
    assert Recorded(t, m, response);
  }

  lemma {:induction false} HasOrigin(ms: seq<Mutation>, j: nat)
    requires j < |ms| && Replayed(Replies(EMPTY_STATE, ms)[j])
    ensures exists i :: 0 <= i < j && Fresh(Replies(EMPTY_STATE, ms)[i]) && SameIntent(ms[i], ms[j])
  {
    hide ValidKey, Normalized;
    ReplyAt(EMPTY_STATE, ms, j);
    assert ms[j].key.Some? && ms[j].key.value in Run(EMPTY_STATE, ms[..j]).records;
    var i := RecordHasOrigin(ms, j, ms[j].key.value);
    assert SameIntent(ms[i], ms[j]);
  }

  /** A key bound to one intent refuses every other, and changes nothing. */
  lemma {:induction false} OtherIntentIsRefused(s: State, pre: seq<Mutation>, m: Mutation, mid: seq<Mutation>, other: Mutation)
    requires Inv(s) && Fresh(Apply(Run(s, pre), m).reply) && m.key.Some? && other.key == m.key
    requires Normalized(other).Some? && !SameIntent(m, other)
    ensures var t := Run(s, pre + [m] + mid);
            Apply(t, other) == Outcome(t, Err(IdempotencyKeyConflict))
  {
    hide Inv, ValidKey, Normalized, Run;
    var response := KeptRecord(s, pre, m, mid, m);
  }

  // -------------------------------------------------- mutations without a key

  /** The same request made at another time. */
  function AtTime(m: Mutation, t: int): Mutation {
    match m
    case Create(k, n, d, key, _) => Create(k, n, d, key, t)
    case Patch(id, n, d, a, c, key, _) => Patch(id, n, d, a, c, key, t)
  }

  /** Patching twice with the same fields is patching once: the second time nothing moves,
      not even the time of the last change. */
  lemma PatchTwice(s: State, m: Mutation, later: int)
    requires m.Patch? && m.key.None? && Apply(s, m).reply.Ok?
    ensures var t := Apply(s, m).state;
            && Apply(t, AtTime(m, later)).state == t
            && Apply(t, AtTime(m, later)).reply == Apply(s, m).reply
  {
    hide Strip;
  }

  /** Creating twice without a key is refused the second time. */
  lemma CreateTwice(s: State, m: Mutation, later: int)
    requires m.Create? && m.key.None? && Apply(s, m).reply.Ok?
    ensures var t := Apply(s, m).state;
            Apply(t, AtTime(m, later)) == Outcome(t, Err(ClientKeyConflict))
  {
    hide Strip;
    var t := Apply(s, m).state;
    assert s.nextId in t.clients;
  }
}
