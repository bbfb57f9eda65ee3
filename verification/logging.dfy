/** The request log record and its serialisation into a structured-log event. */
module Logging {
  import opened Wrappers
  import opened Zerolog

  /** A log record: thirteen optional fields (nil pointers in the Go struct), the message and the
      instant the record was started. */
  datatype Entry = Entry(
    index: Option<string>,
    labelApp: Option<string>,
    httpMethod: Option<string>,
    path: Option<string>,
    statusCode: Option<int>,
    requestId: Option<string>,
    message: string,
    remoteIp: Option<string>,
    contentType: Option<string>,
    latency: Option<string>,
    containerName: Option<string>,
    pod: Option<string>,
    clusterName: Option<string>,
    clusterRegion: Option<string>,
    startTime: Instant)

  function StrIfSet(o: Option<string>): Option<Value>
  {
    match o
    case Some(s) => Some(Str(s))
    case None => None
  }

  function IntIfSet(o: Option<int>): Option<Value>
  {
    match o
    case Some(n) => Some(Int(n))
    case None => None
  }

  /** The event keys of the optional fields, in emission order. */
  const OptionalKeys: seq<string> := [
    "index", "label_app", "http_method", "path", "status_code", "request_id", "remote_ip",
    "content_type", "latency", "container_name", "pod", "cluster_name", "cluster_region"]

  /** The nil-guarded emissions, in emission order: each key with the typed value it would carry. */
  function OptionalSlots(l: Entry): (slots: seq<Slot>)
    ensures |slots| == |OptionalKeys|
    ensures forall j :: 0 <= j < |slots| ==> slots[j].key == OptionalKeys[j]
  {
    [ Slot("index", StrIfSet(l.index)),
      Slot("label_app", StrIfSet(l.labelApp)),
      Slot("http_method", StrIfSet(l.httpMethod)),
      Slot("path", StrIfSet(l.path)),
      Slot("status_code", IntIfSet(l.statusCode)),
      Slot("request_id", StrIfSet(l.requestId)),
      Slot("remote_ip", StrIfSet(l.remoteIp)),
      Slot("content_type", StrIfSet(l.contentType)),
      Slot("latency", StrIfSet(l.latency)),
      Slot("container_name", StrIfSet(l.containerName)),
      Slot("pod", StrIfSet(l.pod)),
      Slot("cluster_name", StrIfSet(l.clusterName)),
      Slot("cluster_region", StrIfSet(l.clusterRegion)) ]
  }

  /** `MarshalZerologObject`: every set optional field in the fixed order, then the message and the
      start time, which are always written and always last. */
  function MarshalZerologObject(l: Entry): (ps: seq<Pair>)
    ensures |ps| >= 2
    ensures ps[|ps| - 2] == Pair("message", Str(l.message))
    ensures ps[|ps| - 1] == Pair("start_time", Time(l.startTime))
  {
    Present(OptionalSlots(l)) + [Pair("message", Str(l.message)), Pair("start_time", Time(l.startTime))]
  }

  /** `NewLogging`: the given message, every optional field nil; the clock reading is a parameter. */
  function NewLogging(message: string, now: Instant): (l: Entry)
    ensures l.message == message && l.startTime == now
    ensures forall j :: 0 <= j < |OptionalKeys| ==> OptionalSlots(l)[j].value.None?
  {
    Entry(None, None, None, None, None, None, message, None, None, None, None, None, None, None, now)
  }

  /** The optional keys are pairwise distinct and differ from the two always-written keys. */
  lemma OptionalKeysDistinct(l: Entry)
    ensures DistinctKeys(OptionalSlots(l))
    ensures KeyUnused(OptionalSlots(l), "message") && KeyUnused(OptionalSlots(l), "start_time")
  {
    forall i, j | 0 <= i < j < |OptionalKeys| ensures OptionalKeys[i] != OptionalKeys[j] {
      var a, b := OptionalKeys[i], OptionalKeys[j];
      assert |a| != |b| || a[0] != b[0] || a[1] != b[1];
    }
    forall i | 0 <= i < |OptionalKeys| ensures OptionalKeys[i] != "message" && OptionalKeys[i] != "start_time" {
      var a := OptionalKeys[i];
      assert |a| != 7 || a[0] != 'm';
      assert |a| != 10 || a[0] != 's';
    }
  }

  /** The event holds two pairs plus one per set optional field. */
  lemma MarshalLength(l: Entry)
    ensures |MarshalZerologObject(l)| == 2 + CountPresent(OptionalSlots(l))
  {
    PresentLength(OptionalSlots(l));
  }

  /** Looking a key up in the event: the always-written pairs carry the message and start time. */
  lemma MarshalLookupFixed(l: Entry)
    ensures Lookup(MarshalZerologObject(l), "message") == Some(Str(l.message))
    ensures Lookup(MarshalZerologObject(l), "start_time") == Some(Time(l.startTime))
  {
    var slots := OptionalSlots(l);
    var tail := [Pair("message", Str(l.message)), Pair("start_time", Time(l.startTime))];
    OptionalKeysDistinct(l);
    PresentLookupUnused(slots, "message");
    PresentLookupUnused(slots, "start_time");
    LookupAppend(Present(slots), tail, "message");
    LookupAppend(Present(slots), tail, "start_time");
  }

  /** Each optional key appears in the event iff its field is set, carrying the pointed-to value:
      `status_code` as an integer, every other field as a string. */
  lemma MarshalLookupOptional(l: Entry)
    ensures Lookup(MarshalZerologObject(l), "index") == StrIfSet(l.index)
    ensures Lookup(MarshalZerologObject(l), "label_app") == StrIfSet(l.labelApp)
    ensures Lookup(MarshalZerologObject(l), "http_method") == StrIfSet(l.httpMethod)
    ensures Lookup(MarshalZerologObject(l), "path") == StrIfSet(l.path)
    ensures Lookup(MarshalZerologObject(l), "status_code") == IntIfSet(l.statusCode)
    ensures Lookup(MarshalZerologObject(l), "request_id") == StrIfSet(l.requestId)
    ensures Lookup(MarshalZerologObject(l), "remote_ip") == StrIfSet(l.remoteIp)
    ensures Lookup(MarshalZerologObject(l), "content_type") == StrIfSet(l.contentType)
    ensures Lookup(MarshalZerologObject(l), "latency") == StrIfSet(l.latency)
    ensures Lookup(MarshalZerologObject(l), "container_name") == StrIfSet(l.containerName)
    ensures Lookup(MarshalZerologObject(l), "pod") == StrIfSet(l.pod)
    ensures Lookup(MarshalZerologObject(l), "cluster_name") == StrIfSet(l.clusterName)
    ensures Lookup(MarshalZerologObject(l), "cluster_region") == StrIfSet(l.clusterRegion)
  {
    MarshalLookupSlot(l, 0);
    MarshalLookupSlot(l, 1);
    MarshalLookupSlot(l, 2);
    MarshalLookupSlot(l, 3);
    MarshalLookupSlot(l, 4);
    MarshalLookupSlot(l, 5);
    MarshalLookupSlot(l, 6);
    MarshalLookupSlot(l, 7);
    MarshalLookupSlot(l, 8);
    MarshalLookupSlot(l, 9);
    MarshalLookupSlot(l, 10);
    MarshalLookupSlot(l, 11);
    MarshalLookupSlot(l, 12);
  }

  /** Generic form of the lookup property, for the optional field at position `j`. */
  lemma MarshalLookupSlot(l: Entry, j: nat)
    requires j < |OptionalKeys|
    ensures Lookup(MarshalZerologObject(l), OptionalKeys[j]) == OptionalSlots(l)[j].value
  {
    var slots := OptionalSlots(l);
    var tail := [Pair("message", Str(l.message)), Pair("start_time", Time(l.startTime))];
    OptionalKeysDistinct(l);
    PresentLookup(slots, j);
    LookupAppend(Present(slots), tail, OptionalKeys[j]);
    if slots[j].value.None? {
      LookupMissing(tail, OptionalKeys[j]);
    }
  }

  /** A set optional field is written at the position counting the set fields before it, so set
      fields appear in the fixed order and before the message. */
  lemma MarshalPosition(l: Entry, j: nat)
    requires j < |OptionalKeys| && OptionalSlots(l)[j].value.Some?
    ensures var pos := CountPresent(OptionalSlots(l)[..j]);
            pos < |MarshalZerologObject(l)| - 2 &&
            MarshalZerologObject(l)[pos] == Pair(OptionalKeys[j], OptionalSlots(l)[j].value.value)
  {
    PresentPosition(OptionalSlots(l), j);
  }

  /** Of two set optional fields, the one earlier in the fixed order is written first. */
  lemma MarshalOrder(l: Entry, i: nat, j: nat)
    requires i < j < |OptionalKeys|
    requires OptionalSlots(l)[i].value.Some? && OptionalSlots(l)[j].value.Some?
    ensures CountPresent(OptionalSlots(l)[..i]) < CountPresent(OptionalSlots(l)[..j])
  {
    PresentOrder(OptionalSlots(l), i, j);
  }

  /** A freshly created record serialises to its message and start time alone. */
  lemma NewLoggingMarshal(message: string, now: Instant)
    ensures MarshalZerologObject(NewLogging(message, now)) ==
            [Pair("message", Str(message)), Pair("start_time", Time(now))]
  {
    var l := NewLogging(message, now);
    NoFieldSetNothingPresent(OptionalSlots(l));
  }
}
