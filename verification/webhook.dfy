/**
 * The two endpoints around the core: `POST /webhook/receiver`
 * (`handle_github_webhook`), which answers 400, 200, 201 or 500, and
 * `GET /events` (`get_events`).  The clock reading and the store's failures
 * are inputs.
 */
module Webhook {
  import opened Wrappers
  import opened PyJson
  import opened Timestamp
  import opened Normalizer
  import opened Store
  import opened Text

  /** How a webhook request ends before the store is involved. */
  datatype Outcome = InvalidPayload | Ignored | Produced(record: Record)

  /** An HTTP status with the `msg` of the JSON body. */
  datatype Response = Response(status: int, msg: string)

  /** The payloads the handler can process without raising: falsy ones are rejected before any read. */
  predicate Acceptable(eventType: string, data: Json)
  {
    Truthy(data) ==> Readable(eventType, data)
  }

  /**
   * The decision `handle_github_webhook` takes for a payload received at `now`:
   * a missing or falsy payload (None, {}, [], "", 0, false) is invalid;
   * otherwise the normaliser decides between a record and "ignored".
   */
  function Classify(eventType: string, data: Json, now: DateTime): (o: Outcome)
    requires ValidDateTime(now) && Acceptable(eventType, data)
    ensures o == InvalidPayload <==> !Truthy(data)
    ensures o.Produced? ==> o.record.timestamp == Format(now)
  {
    if !Truthy(data) then InvalidPayload
    else match Normalize(eventType, data, Format(now))
      case None => Ignored
      case Some(r) => Produced(r)
  }

  /**
   * The response to a request with outcome `o`, when the insert fails exactly
   * if `insertFails`: each of the four statuses has exactly one cause and
   * one message.
   */
  function Respond(o: Outcome, insertFails: bool): (resp: Response)
    ensures resp.status in {200, 201, 400, 500}
    ensures resp.status >= 400 <==> o.InvalidPayload? || (o.Produced? && insertFails)
    ensures resp.status == 400 <==> o.InvalidPayload?
    ensures resp.status == 200 <==> o.Ignored?
    ensures resp.status == 201 <==> o.Produced? && !insertFails
    ensures resp.status == 500 <==> o.Produced? && insertFails
    ensures resp.status == 400 ==> resp.msg == "Invalid payload"
    ensures resp.status == 200 ==> resp.msg == "Event received but ignored"
    ensures resp.status == 201 ==> resp.msg == "Event stored successfully"
    ensures resp.status == 500 ==> resp.msg == "Internal Server Error"
  {
    match o
    case InvalidPayload => Response(400, "Invalid payload")
    case Ignored => Response(200, "Event received but ignored")
    case Produced(_) =>
      if insertFails then Response(500, "Internal Server Error")
      else Response(201, "Event stored successfully")
  }

  /**
   * The stored records after a request with outcome `o`: the store is append
   * only, and it grows by one record exactly when a record was produced and
   * the insert did not fail.
   */
  function StoredAfter(records: seq<Record>, o: Outcome, insertFails: bool): (after: seq<Record>)
    ensures records <= after
    ensures |after| == |records| + 1 <==> o.Produced? && !insertFails
    ensures |after| <= |records| + 1
  {
    if o.Produced? && !insertFails then records + [o.record] else records
  }

  /**
   * Each status has one cause, and the store grows, by exactly one record,
   * only with a 201.
   */
  lemma StatusMeaning(records: seq<Record>, o: Outcome, insertFails: bool)
    ensures var resp := Respond(o, insertFails);
      && resp.status in {200, 201, 400, 500}
      && (resp.status == 400 <==> o == InvalidPayload)
      && (resp.status == 200 <==> o == Ignored)
      && (resp.status == 201 <==> o.Produced? && !insertFails)
      && (resp.status == 500 <==> o.Produced? && insertFails)
      && (resp.status == 201 ==> StoredAfter(records, o, insertFails) == records + [o.record])
      && (resp.status != 201 ==> StoredAfter(records, o, insertFails) == records)
  {
  }

  /** `handle_github_webhook`, with the store, the clock reading and the insert's failure as inputs. */
  method HandleWebhook(store: EventStore, eventType: string, data: Json, now: DateTime, insertFails: bool)
    returns (resp: Response)
    requires store.Valid() && ValidDateTime(now) && Acceptable(eventType, data)
    modifies store
    ensures store.Valid()
    ensures resp == Respond(Classify(eventType, data, now), insertFails)
    ensures store.Records() == StoredAfter(old(store.Records()), Classify(eventType, data, now), insertFails)
    ensures resp.status != 201 ==> store.docs == old(store.docs)
  {
    if !Truthy(data) {
      return Response(400, "Invalid payload");
    }
    var timestamp := Format(now);
    var event := Normalize(eventType, data, timestamp);
    if event.Some? {
      var ok := store.Insert(event.value, insertFails);
      if ok {
        return Response(201, "Event stored successfully");
      } else {
        return Response(500, "Internal Server Error");
      }
    }
    return Response(200, "Event received but ignored");
  }

  /** `get_events`: the ten newest records, newest first, or 500 when the read fails. */
  method GetEvents(store: EventStore, readFails: bool) returns (status: int, events: seq<Record>)
    ensures readFails ==> status == 500 && events == []
    ensures !readFails ==> status == 200 && |events| == Min(10, |store.docs|)
    ensures !readFails ==> forall k :: 0 <= k < |events| ==> events[k] == store.Records()[|store.docs| - 1 - k]
  {
    if readFails {
      return 500, [];
    }
    events := store.Recent(10);
    status := 200;
    NewestAt(store.docs, 10);
  }

  // ---------------------------------------------------------------------------
  // Properties of whole requests.

  /** An unrecognised event name is acknowledged and ignored whatever the (truthy) payload. */
  lemma OtherEventsIgnored(eventType: string, data: Json, now: DateTime)
    requires ValidDateTime(now) && Truthy(data)
    requires eventType != "push" && eventType != "pull_request"
    ensures Classify(eventType, data, now) == Ignored
    ensures Respond(Classify(eventType, data, now), false).status == 200
  {
  }

  /** The same payload sent twice is stored twice: there is no deduplication. */
  lemma NoDeduplication(records: seq<Record>, eventType: string, data: Json, now: DateTime)
    requires ValidDateTime(now) && Acceptable(eventType, data)
    requires Classify(eventType, data, now).Produced?
    ensures var o := Classify(eventType, data, now);
      StoredAfter(StoredAfter(records, o, false), o, false) == records + [o.record, o.record]
  {
  }

  /** The payload of the push example: ref, after and pusher.name. */
  function PushExample(): Json
  {
    Obj(map["ref" := Str("refs/heads/main"), "after" := Str("abc123"),
            "pusher" := Obj(map["name" := Str("alice")])])
  }

  /** The push example normalises to a PUSH from alice to main with request id abc123. */
  lemma PushExampleNormalized(timestamp: string)
    ensures PushReadable(PushExample())
    ensures Normalize("push", PushExample(), timestamp)
      == Some(Record(Str("abc123"), Str("alice"), Push, Str(""), Str("main"), timestamp))
  {
    var data := PushExample();
    var pusher := Obj(map["name" := Str("alice")]);
    assert data.fields["pusher"] == pusher && data.fields["ref"] == Str("refs/heads/main");
    assert data.fields["after"] == Str("abc123");
    assert ChainGet(data, ["pusher", "name"]) == Str("alice") by {
      assert ChainGet(data, ["pusher", "name"]) == ChainGet(pusher, ["name"]);
    }
    assert RemoveAll(Ref(data), BranchPrefix) == "main" by {
      assert Ref(data) == BranchPrefix + "main";
      RemoveAllLeading(BranchPrefix, "main");
      assert !Contains("main", BranchPrefix);
      RemoveAllAbsent("main", BranchPrefix);
    }
  }

  /** The push example is stored as a PUSH from alice to main with request id abc123, answered 201. */
  lemma PushExampleStored(now: DateTime)
    requires ValidDateTime(now)
    ensures Acceptable("push", PushExample())
    ensures Classify("push", PushExample(), now)
      == Produced(Record(Str("abc123"), Str("alice"), Push, Str(""), Str("main"), Format(now)))
    ensures Respond(Classify("push", PushExample(), now), false).status == 201
  {
    PushExampleNormalized(Format(now));
    assert Truthy(PushExample()) by {
      assert "ref" in PushExample().fields;
    }
  }

  /** A pull request closed without merging. */
  function UnmergedCloseExample(): Json
  {
    Obj(map["action" := Str("closed"), "pull_request" := Obj(map["merged" := Bool(false)])])
  }

  /** A pull request closed without merging is acknowledged with 200 and not stored. */
  lemma UnmergedCloseIgnored(records: seq<Record>, now: DateTime)
    requires ValidDateTime(now)
    ensures Acceptable("pull_request", UnmergedCloseExample())
    ensures Classify("pull_request", UnmergedCloseExample(), now) == Ignored
    ensures Respond(Classify("pull_request", UnmergedCloseExample(), now), false)
      == Response(200, "Event received but ignored")
    ensures StoredAfter(records, Classify("pull_request", UnmergedCloseExample(), now), false) == records
  {
    var data := UnmergedCloseExample();
    var pr := Obj(map["merged" := Bool(false)]);
    assert Child(data, "pull_request") == pr;
    EmptyChain(["login"]);
    assert Chainable(pr, ["user", "login"]) && Chainable(pr, ["head", "ref"]) && Chainable(pr, ["base", "ref"]);
  }

  /** An empty JSON object is rejected with 400 and nothing is stored. */
  lemma EmptyPayloadRejected(records: seq<Record>, eventType: string, now: DateTime, insertFails: bool)
    requires ValidDateTime(now)
    ensures Respond(Classify(eventType, Obj(map[]), now), insertFails) == Response(400, "Invalid payload")
    ensures StoredAfter(records, Classify(eventType, Obj(map[]), now), insertFails) == records
  {
  }

  /** Reading an empty store answers 200 with an empty list. */
  method EmptyStoreReadsEmpty() returns (status: int, events: seq<Record>)
    ensures status == 200 && events == []
  {
    var store := new EventStore();
    status, events := GetEvents(store, false);
  }
}
