/**
 The facility cache: zones and slots are kept apart, fed by events of a partitioned topic, and joined when a bin is
 looked up. It is ready once every partition has reached the end it had when the consumer started.
 */
module FacilityCache {
  import opened Shared
  import opened Product

  /** A decoded event; a message that does not decode is Malformed. */
  datatype Payload =
    | ZoneRegistered(zoneId: string, hazmat: bool, temperatureClass: string)
    | SlotRegistered(code: string, slotZone: string)
    | SlotDecommissioned(code: string)
    | Ignored
    | Malformed

  datatype Message = Message(partition: nat, offset: nat, payload: Payload)

  datatype View = View(zones: map<string, SlotAttributes>, slots: map<string, string>)

  const NO_VIEW := View(map[], map[])

  function ParsedTemperature(value: string): string {
    if value == "Ambient" || value == "Chilled" || value == "Frozen" then value else ""
  }

  // ---- the zone part of a location code

  /** The segments of a code between hyphens. */
  function Split(code: string): (parts: seq<string>)
    ensures |parts| >= 1
  {
    if code == "" then [""]
    else
      var parts := Split(code[1..]);
      if code[0] == '-' then [""] + parts else [[code[0]] + parts[0]] + parts[1..]
  }

  /** Site, area and zone: the first three segments, or nothing when there are fewer. */
  function ZoneOf(code: string): string {
    var parts := Split(code);
    if |parts| < 3 then "" else parts[0] + "-" + parts[1] + "-" + parts[2]
  }

  predicate Plain(segment: string) {
    '-' !in segment
  }

  lemma {:induction false} SplitPlain(a: string)
    requires Plain(a)
    ensures Split(a) == [a]
  {
    if a != "" {
      assert a[0] in a && [a[0]] + a[1..] == a;
      SplitPlain(a[1..]);
    }
  }

  lemma {:induction false} SplitFirst(a: string, rest: string)
    requires Plain(a)
    ensures Split(a + "-" + rest) == [a] + Split(rest)
  {
    var code := a + "-" + rest;
    if a == "" {
      assert code[1..] == rest;
    } else {
      assert a[0] in a && [a[0]] + a[1..] == a;
      assert code[0] == a[0] && code[1..] == a[1..] + "-" + rest;
      SplitFirst(a[1..], rest);
    }
  }

  /** The zone of site-area-zone, with or without more segments behind it, is site-area-zone. */
  lemma ZoneOfCode(site: string, area: string, zone: string, rest: string)
    requires Plain(site) && Plain(area) && Plain(zone)
    ensures ZoneOf(site + "-" + area + "-" + zone) == site + "-" + area + "-" + zone
    ensures ZoneOf(site + "-" + area + "-" + zone + "-" + rest) == site + "-" + area + "-" + zone
    ensures ZoneOf(site + "-" + area) == ""
  {
    assert site + "-" + area + "-" + zone == site + "-" + (area + "-" + zone);
    assert site + "-" + area + "-" + zone + "-" + rest == site + "-" + (area + "-" + (zone + "-" + rest));
    SplitFirst(site, area + "-" + zone);
    SplitFirst(site, area + "-" + (zone + "-" + rest));
    SplitFirst(site, area);
    SplitFirst(area, zone);
    SplitFirst(area, zone + "-" + rest);
    SplitFirst(zone, rest);
    SplitPlain(area);
    SplitPlain(zone);
  }

  // ---- events

  /** An event that cannot be applied: it does not decode, or a required id is empty. */
  predicate Rejected(e: Payload) {
    e.Malformed? || (e.ZoneRegistered? && e.zoneId == "") || (e.SlotRegistered? && e.code == "")
  }

  function Applied(v: View, e: Payload): View {
    if Rejected(e) then v
    else
      match e
      case ZoneRegistered(id, hazmat, temperature) =>
        v.(zones := v.zones[id := SlotAttributes(hazmat, ParsedTemperature(temperature), true)])
      case SlotRegistered(code, zone) => v.(slots := v.slots[code := if zone == "" then ZoneOf(code) else zone])
      case SlotDecommissioned(code) => v.(slots := v.slots - {code})
      case _ => v
  }

  /** The view after a whole list of messages. */
  function Replay(log: seq<Message>): View {
    if log == [] then NO_VIEW else Applied(Replay(log[..|log| - 1]), log[|log| - 1].payload)
  }

  /** The join at lookup time; an unknown slot or a zone not seen yet is not known. */
  function Lookup(v: View, bin: string): SlotAttributes {
    if bin in v.slots && v.slots[bin] in v.zones then v.zones[v.slots[bin]] else SlotAttributes(false, "", false)
  }

  // ---- what events are about

  /** What an event is about: the entry of the view it may change. */
  datatype Entity = Zone(id: string) | Slot(slotCode: string) | Nothing

  function About(e: Payload): Entity {
    if Rejected(e) then Nothing
    else
      match e
      case ZoneRegistered(id, _, _) => Zone(id)
      case SlotRegistered(code, _) => Slot(code)
      case SlotDecommissioned(code) => Slot(code)
      case _ => Nothing
  }

  /** The last event about an entity. */
  function LastAbout(log: seq<Message>, k: Entity): Option<Payload> {
    if log == [] then None
    else if About(log[|log| - 1].payload) == k then Some(log[|log| - 1].payload)
    else LastAbout(log[..|log| - 1], k)
  }

  function OfPartition(log: seq<Message>, p: nat): seq<Message> {
    if log == [] then []
    else OfPartition(log[..|log| - 1], p) + if log[|log| - 1].partition == p then [log[|log| - 1]] else []
  }

  /** Every entry of the view is what the last event about it says. */
  lemma {:induction false} ViewIsLast(log: seq<Message>, id: string, code: string)
    ensures var v := Replay(log);
      && (match LastAbout(log, Zone(id))
          case None => id !in v.zones
          case Some(e) => e.ZoneRegistered? && id in v.zones
                          && v.zones[id] == SlotAttributes(e.hazmat, ParsedTemperature(e.temperatureClass), true))
      && (match LastAbout(log, Slot(code))
          case None => code !in v.slots
          case Some(e) =>
            if e.SlotRegistered? then
              code in v.slots && v.slots[code] == if e.slotZone == "" then ZoneOf(code) else e.slotZone
            else code !in v.slots)
  {
    if log != [] {
      ViewIsLast(log[..|log| - 1], id, code);
    }
  }

  // ---- what an entry of the view says

  datatype Entry = Known(attributes: SlotAttributes) | Placed(zone: string) | Absent

  /** What an event says about the zone or slot it is about. */
  function Effect(e: Payload): Entry {
    match e
    case ZoneRegistered(_, hazmat, temperature) => Known(SlotAttributes(hazmat, ParsedTemperature(temperature), true))
    case SlotRegistered(code, zone) => Placed(if zone == "" then ZoneOf(code) else zone)
    case _ => Absent
  }

  function EntryOf(v: View, k: Entity): Entry {
    match k
    case Zone(id) => if id in v.zones then Known(v.zones[id]) else Absent
    case Slot(code) => if code in v.slots then Placed(v.slots[code]) else Absent
    case Nothing => Absent
  }

  lemma EntryIsLast(log: seq<Message>, k: Entity)
    requires k != Nothing
    ensures EntryOf(Replay(log), k) == match LastAbout(log, k) case None => Absent case Some(e) => Effect(e)
  {
    hide Replay, LastAbout, ZoneOf, ParsedTemperature;
    match k
    case Zone(id) => ViewIsLast(log, id, "");
    case Slot(code) =>
      ViewIsLast(log, "", code);
      LastIsAbout(log, k);
  }

  lemma {:induction false} LastIsAbout(log: seq<Message>, k: Entity)
    ensures LastAbout(log, k).Some? ==> About(LastAbout(log, k).value) == k
  {
    if log != [] {
      LastIsAbout(log[..|log| - 1], k);
    }
  }

  lemma SameEntriesSameView(v: View, w: View)
    requires forall k :: k != Nothing ==> EntryOf(v, k) == EntryOf(w, k)
    ensures v == w
  {
    forall id ensures (id in v.zones <==> id in w.zones) && (id in v.zones ==> v.zones[id] == w.zones[id]) {
      assert EntryOf(v, Zone(id)) == EntryOf(w, Zone(id));
    }
    forall code ensures (code in v.slots <==> code in w.slots) && (code in v.slots ==> v.slots[code] == w.slots[code]) {
      assert EntryOf(v, Slot(code)) == EntryOf(w, Slot(code));
    }
    assert v.zones == w.zones && v.slots == w.slots;
  }

  // ---- what a lookup answers, said of the messages

  /** The bin's last registration, with nothing about the bin after it. */
  predicate SlotStands(log: seq<Message>, i: nat, bin: string) {
    && i < |log| && log[i].payload.SlotRegistered? && log[i].payload.code == bin
    && forall j :: i < j < |log| ==>
         match log[j].payload
         case SlotRegistered(code, _) => code != bin
         case SlotDecommissioned(code) => code != bin
         case _ => true
  }

  /** The zone's last registration. */
  predicate ZoneStands(log: seq<Message>, i: nat, zone: string) {
    && i < |log| && log[i].payload.ZoneRegistered? && log[i].payload.zoneId == zone
    && forall j :: i < j < |log| && log[j].payload.ZoneRegistered? ==> log[j].payload.zoneId != zone
  }

  /** The zone a registration puts its slot in: the one it names, or the one its code begins with. */
  function ZoneNamed(e: Payload): string
    requires e.SlotRegistered?
  {
    if e.slotZone != "" then e.slotZone else ZoneOf(e.code)
  }

  lemma {:induction false} LastStands(log: seq<Message>, k: Entity) returns (i: nat)
    requires LastAbout(log, k).Some?
    ensures i < |log| && log[i].payload == LastAbout(log, k).value && About(log[i].payload) == k
    ensures forall j :: i < j < |log| ==> About(log[j].payload) != k
  {
    var n := |log| - 1;
    i := n;
    if About(log[n].payload) != k {
      i := LastStands(log[..n], k);
      assert forall j :: 0 <= j < n ==> log[..n][j] == log[j];
    }
  }

  lemma {:induction false} StandingIsLast(log: seq<Message>, k: Entity, i: nat)
    requires i < |log| && About(log[i].payload) == k && forall j :: i < j < |log| ==> About(log[j].payload) != k
    ensures LastAbout(log, k) == Some(log[i].payload)
  {
    if i < |log| - 1 {
      StandingIsLast(log[..|log| - 1], k, i);
    }
  }

  /** A standing registration of the slot decides its zone. */
  lemma SlotStandsInView(log: seq<Message>, i: nat, bin: string)
    requires bin != "" && SlotStands(log, i, bin)
    ensures bin in Replay(log).slots && Replay(log).slots[bin] == ZoneNamed(log[i].payload)
  {
    hide Replay, LastAbout, ZoneOf;
    StandingIsLast(log, Slot(bin), i);
    ViewIsLast(log, "", bin);
  }

  lemma ZoneStandsInView(log: seq<Message>, i: nat, zone: string)
    requires zone != "" && ZoneStands(log, i, zone)
    ensures zone in Replay(log).zones
    ensures Replay(log).zones[zone] ==
            SlotAttributes(log[i].payload.hazmat, ParsedTemperature(log[i].payload.temperatureClass), true)
  {
    hide Replay, LastAbout, ParsedTemperature;
    StandingIsLast(log, Zone(zone), i);
    ViewIsLast(log, zone, "");
  }

  /** Message i puts the bin in a zone that message k describes, and both stand. */
  predicate Described(log: seq<Message>, i: nat, k: nat, bin: string) {
    && bin != "" && SlotStands(log, i, bin)
    && ZoneNamed(log[i].payload) != "" && ZoneStands(log, k, ZoneNamed(log[i].payload))
  }

  /** What is in the view stands in the log. */
  lemma KnownStands(log: seq<Message>, bin: string) returns (i: nat, k: nat)
    requires Lookup(Replay(log), bin).known
    ensures Described(log, i, k, bin)
  {
    hide Replay, LastAbout, ZoneOf, ParsedTemperature;
    ViewIsLast(log, "", bin);
    LastIsAbout(log, Slot(bin));
    i := LastStands(log, Slot(bin));
    var zone := Replay(log).slots[bin];
    ViewIsLast(log, zone, "");
    LastIsAbout(log, Zone(zone));
    k := LastStands(log, Zone(zone));
  }

  /**
   A lookup knows a bin if and only if its last registration stands and so does one of the zone it lies in. Then it
   gives that zone's hazmat mark, and its temperature class when that is one of the three there are; otherwise nothing.
   */
  lemma LookupAnswers(log: seq<Message>, bin: string)
    ensures var attrs := Lookup(Replay(log), bin);
      && (attrs.known <==> exists i: nat, k: nat :: Described(log, i, k, bin))
      && (!attrs.known ==> attrs == SlotAttributes(false, "", false))
      && forall i: nat, k: nat :: Described(log, i, k, bin) ==>
           && attrs.hazmat == log[k].payload.hazmat
           && attrs.temperatureClass ==
              if log[k].payload.temperatureClass in {"Ambient", "Chilled", "Frozen"} then log[k].payload.temperatureClass else ""
  {
    hide Replay, SlotStands, ZoneStands, ZoneOf;
    forall i: nat, k: nat | Described(log, i, k, bin)
      ensures i < |log| && k < |log| && log[k].payload.ZoneRegistered?
      ensures Lookup(Replay(log), bin) ==
              SlotAttributes(log[k].payload.hazmat, ParsedTemperature(log[k].payload.temperatureClass), true)
    {
      DescribedInView(log, i, k, bin);
    }
    if Lookup(Replay(log), bin).known {
      var i, k := KnownStands(log, bin);
      assert Described(log, i, k, bin);
    } else {
      UnknownIsBlank(Replay(log), log, bin);
    }
  }

  lemma DescribedInView(log: seq<Message>, i: nat, k: nat, bin: string)
    requires Described(log, i, k, bin)
    ensures i < |log| && k < |log| && log[k].payload.ZoneRegistered?
    ensures Lookup(Replay(log), bin) ==
            SlotAttributes(log[k].payload.hazmat, ParsedTemperature(log[k].payload.temperatureClass), true)
  {
    SlotStandsInView(log, i, bin);
    ZoneStandsInView(log, k, ZoneNamed(log[i].payload));
    hide Replay, ZoneOf, ParsedTemperature;
  }

  lemma UnknownIsBlank(v: View, log: seq<Message>, bin: string)
    requires v == Replay(log) && !Lookup(v, bin).known
    ensures Lookup(v, bin) == SlotAttributes(false, "", false)
  {
    hide Replay, LastAbout, ZoneOf;
    if bin in v.slots && v.slots[bin] in v.zones {
      ViewIsLast(log, v.slots[bin], "");
    }
  }

  // ---- interleavings of one set of partitions

  /** The same partitions, interleaved in another way. */
  ghost predicate SamePartitions(log: seq<Message>, other: seq<Message>) {
    forall p :: OfPartition(log, p) == OfPartition(other, p)
  }

  ghost predicate AllAgree(log: seq<Message>) {
    forall other :: SamePartitions(log, other) ==> Replay(other) == Replay(log)
  }

  /** For every zone and slot, the last events about it in each of its partitions say the same. */
  ghost predicate LastsAlike(log: seq<Message>) {
    forall k, p, q :: k != Nothing ==> LastPairAlike(OfPartition(log, p), OfPartition(log, q), k)
  }

  predicate LastPairAlike(log: seq<Message>, other: seq<Message>, k: Entity) {
    LastAbout(log, k).Some? && LastAbout(other, k).Some? ==> Effect(LastAbout(log, k).value) == Effect(LastAbout(other, k).value)
  }

  lemma {:induction false} LastOfJoin(log: seq<Message>, more: seq<Message>, k: Entity)
    ensures LastAbout(log + more, k) == if LastAbout(more, k).Some? then LastAbout(more, k) else LastAbout(log, k)
    decreases |more|
  {
    if more == [] {
      assert log + more == log;
    } else {
      assert (log + more)[..|log + more| - 1] == log + more[..|more| - 1];
      LastOfJoin(log, more[..|more| - 1], k);
    }
  }

  /** The last event about an entity is the last one in one of the partitions. */
  lemma {:induction false} LastInSome(log: seq<Message>, k: Entity) returns (p: nat)
    ensures LastAbout(OfPartition(log, p), k) == LastAbout(log, k)
  {
    p := 0;
    if log != [] {
      var front, last := log[..|log| - 1], log[|log| - 1];
      if About(last.payload) == k {
        p := last.partition;
      } else {
        p := LastInSome(front, k);
      }
      LastOfPartition(front, last, p, k);
      assert front + [last] == log;
    }
  }

  lemma LastOfPartition(front: seq<Message>, last: Message, p: nat, k: Entity)
    ensures LastAbout(OfPartition(front + [last], p), k) ==
            if last.partition == p && About(last.payload) == k then Some(last.payload) else LastAbout(OfPartition(front, p), k)
  {
    assert (front + [last])[..|front|] == front;
    var part := OfPartition(front, p);
    if last.partition == p {
      assert (part + [last])[..|part|] == part;
    } else {
      assert part + [] == part;
    }
  }

  lemma {:induction false} NoneInAny(log: seq<Message>, k: Entity, p: nat)
    ensures LastAbout(log, k).None? ==> LastAbout(OfPartition(log, p), k).None?
  {
    if log != [] {
      var front, last := log[..|log| - 1], log[|log| - 1];
      NoneInAny(front, k, p);
      LastOfPartition(front, last, p, k);
      assert front + [last] == log;
    }
  }

  /** With the last events alike, any interleaving leaves the same entries. */
  lemma AlikeAgree(log: seq<Message>, other: seq<Message>, k: Entity)
    requires LastsAlike(log) && SamePartitions(log, other) && k != Nothing
    ensures EntryOf(Replay(log), k) == EntryOf(Replay(other), k)
  {
    hide Replay, LastAbout, OfPartition, EntryOf, Effect;
    EntryIsLast(log, k);
    EntryIsLast(other, k);
    var p := LastInSome(log, k);
    var q := LastInSome(other, k);
    NoneInAny(log, k, q);
    NoneInAny(other, k, p);
    assert OfPartition(log, p) == OfPartition(other, p) && OfPartition(log, q) == OfPartition(other, q);
    assert LastPairAlike(OfPartition(log, p), OfPartition(log, q), k);
  }

  function Without(log: seq<Message>, p: nat): seq<Message> {
    if log == [] then []
    else Without(log[..|log| - 1], p) + if log[|log| - 1].partition == p then [] else [log[|log| - 1]]
  }

  /** The interleaving in which one partition comes after all the others. */
  function Deferred(log: seq<Message>, p: nat): seq<Message> {
    Without(log, p) + OfPartition(log, p)
  }

  lemma {:induction false} PartitionOfJoin(log: seq<Message>, more: seq<Message>, p: nat)
    ensures OfPartition(log + more, p) == OfPartition(log, p) + OfPartition(more, p)
    decreases |more|
  {
    if more == [] {
      assert log + more == log;
    } else {
      assert (log + more)[..|log + more| - 1] == log + more[..|more| - 1];
      PartitionOfJoin(log, more[..|more| - 1], p);
    }
  }

  lemma NextMessage(front: seq<Message>, last: Message, p: nat)
    ensures OfPartition(front + [last], p) == if last.partition == p then OfPartition(front, p) + [last] else OfPartition(front, p)
    ensures Without(front + [last], p) == if last.partition == p then Without(front, p) else Without(front, p) + [last]
  {
    assert (front + [last])[..|front|] == front;
  }

  lemma NoMessages(p: nat)
    ensures OfPartition([], p) == [] && Without([], p) == []
  {
  }

  lemma {:induction false} PartitionOfParts(log: seq<Message>, p: nat, q: nat)
    ensures OfPartition(OfPartition(log, p), q) == if p == q then OfPartition(log, p) else []
    ensures OfPartition(Without(log, p), q) == if p == q then [] else OfPartition(log, q)
  {
    hide OfPartition, Without;
    if log == [] {
      NoMessages(p);
      NoMessages(q);
    } else {
      var front, last := log[..|log| - 1], log[|log| - 1];
      assert front + [last] == log;
      PartitionOfParts(front, p, q);
      NextMessage(front, last, q);
      NextMessage(front, last, p);
      NextMessage(OfPartition(front, p), last, q);
      NextMessage(Without(front, p), last, q);
    }
  }

  lemma DeferredSamePartitions(log: seq<Message>, p: nat)
    ensures SamePartitions(log, Deferred(log, p))
  {
    hide OfPartition, Without;
    forall q ensures OfPartition(log, q) == OfPartition(Deferred(log, p), q) {
      PartitionOfParts(log, p, q);
      PartitionOfJoin(Without(log, p), OfPartition(log, p), q);
    }
  }

  /** Where every interleaving agrees, the last events about an entity in two partitions say the same. */
  lemma AgreeAlike(log: seq<Message>, k: Entity, p: nat, q: nat)
    requires AllAgree(log) && k != Nothing
    ensures LastPairAlike(OfPartition(log, p), OfPartition(log, q), k)
  {
    hide Replay, LastAbout, OfPartition, Without, EntryOf, Effect, SamePartitions;
    DeferredSamePartitions(log, p);
    DeferredSamePartitions(log, q);
    assert Replay(Deferred(log, p)) == Replay(Deferred(log, q));
    EntryIsLast(Deferred(log, p), k);
    EntryIsLast(Deferred(log, q), k);
    LastOfJoin(Without(log, p), OfPartition(log, p), k);
    LastOfJoin(Without(log, q), OfPartition(log, q), k);
  }

  /**
   Every interleaving of the same partitions gives the same view if and only if, for each zone and slot, the last
   events about it in each of its partitions say the same.
   */
  lemma AgreeIffLastsAlike(log: seq<Message>)
    ensures AllAgree(log) <==> LastsAlike(log)
  {
    hide Replay, LastPairAlike, SamePartitions, OfPartition;
    if AllAgree(log) {
      forall k, p, q | k != Nothing ensures LastPairAlike(OfPartition(log, p), OfPartition(log, q), k) {
        AgreeAlike(log, k, p, q);
      }
    }
    if LastsAlike(log) {
      forall other | SamePartitions(log, other) ensures Replay(other) == Replay(log) {
        forall k | k != Nothing ensures EntryOf(Replay(log), k) == EntryOf(Replay(other), k) {
          AlikeAgree(log, other, k);
        }
        SameEntriesSameView(Replay(log), Replay(other));
      }
    }
  }

  /** All events about an entity travel in its partition. */
  ghost predicate Homed(log: seq<Message>, home: Entity -> nat) {
    forall i :: 0 <= i < |log| && About(log[i].payload) != Nothing ==> log[i].partition == home(About(log[i].payload))
  }

  lemma {:induction false} OnlyAtHome(log: seq<Message>, k: Entity, p: nat, home: Entity -> nat)
    requires Homed(log, home) && k != Nothing
    ensures LastAbout(OfPartition(log, p), k).Some? ==> p == home(k)
  {
    if log != [] {
      var front, last := log[..|log| - 1], log[|log| - 1];
      assert Homed(front, home) && log[|log| - 1] == last;
      OnlyAtHome(front, k, p, home);
      LastOfPartition(front, last, p, k);
      assert front + [last] == log;
    }
  }

  /**
   When all events about one zone or slot share a partition, any two interleavings of the same partitions give every
   bin the same attributes, even where a slot came before its zone.
   */
  lemma InterleavingsAgree(log: seq<Message>, other: seq<Message>, home: Entity -> nat, bin: string)
    requires Homed(log, home) && SamePartitions(log, other)
    ensures Replay(log) == Replay(other) && Lookup(Replay(log), bin) == Lookup(Replay(other), bin)
  {
    hide Replay, LastAbout, OfPartition, Homed, SamePartitions;
    forall k, p, q | k != Nothing ensures LastPairAlike(OfPartition(log, p), OfPartition(log, q), k) {
      OnlyAtHome(log, k, p, home);
      OnlyAtHome(log, k, q, home);
    }
    AgreeIffLastsAlike(log);
  }

  /** Without a shared partition two interleavings can disagree: here one slot's two events travel apart. */
  lemma SplitPartitionsDisagree()
    ensures var zone, moved := Message(0, 0, ZoneRegistered("A", true, "")), Message(1, 0, SlotDecommissioned("A-B-C-1"));
      var slot := Message(0, 1, SlotRegistered("A-B-C-1", "A"));
      var log, other := [zone, slot, moved], [zone, moved, slot];
      && SamePartitions(log, other)
      && !Lookup(Replay(log), "A-B-C-1").known && Lookup(Replay(other), "A-B-C-1").known
  {
    var zone, moved := Message(0, 0, ZoneRegistered("A", true, "")), Message(1, 0, SlotDecommissioned("A-B-C-1"));
    var slot := Message(0, 1, SlotRegistered("A-B-C-1", "A"));
    forall p ensures OfPartition([zone, slot, moved], p) == OfPartition([zone, moved, slot], p) {
      PartitionOfThree(zone, slot, moved, p);
      PartitionOfThree(zone, moved, slot, p);
    }
    ReplayOfThree(zone, slot, moved);
    ReplayOfThree(zone, moved, slot);
  }

  lemma PartitionOfThree(a: Message, b: Message, c: Message, p: nat)
    ensures OfPartition([a, b, c], p) ==
            (if a.partition == p then [a] else []) + (if b.partition == p then [b] else [])
            + (if c.partition == p then [c] else [])
  {
    assert [a, b, c][..2] == [a, b] && [a, b][..1] == [a] && [a][..0] == [];
    assert OfPartition([a], p) == if a.partition == p then [a] else [];
    assert OfPartition([a, b], p) == OfPartition([a], p) + if b.partition == p then [b] else [];
  }

  lemma ReplayOfThree(a: Message, b: Message, c: Message)
    ensures Replay([a, b, c]) == Applied(Applied(Applied(NO_VIEW, a.payload), b.payload), c.payload)
  {
    assert [a, b, c][..2] == [a, b] && [a, b][..1] == [a] && [a][..0] == [];
    assert Replay([a]) == Applied(NO_VIEW, a.payload);
    assert Replay([a, b]) == Applied(Replay([a]), b.payload);
  }

  // ---- readiness

  /** Each partition's next offset when the consumer started, for partitions that held any message. */
  type Target = map<nat, nat>

  /** The partition has been read up to its captured end. */
  ghost predicate Reached(log: seq<Message>, p: nat, end: nat) {
    exists i :: 0 <= i < |log| && log[i].partition == p && log[i].offset + 1 >= end
  }

  /** What is still missing of the captured target. */
  ghost function Pending(captured: Target, log: seq<Message>): Target {
    map p | p in captured && !Reached(log, p, captured[p]) :: captured[p]
  }

  /** A partition delivers its messages in order and skips none it holds. */
  ghost predicate InOrder(log: seq<Message>, held: nat -> iset<nat>) {
    forall i, o: nat :: 0 <= i < |log| && o < log[i].offset && o in held(log[i].partition) ==>
      exists j :: 0 <= j < i && log[j].partition == log[i].partition && log[j].offset == o
  }

  /** Ready means caught up: every message below the captured end of every partition has been delivered. */
  lemma ReadyMeansCaughtUp(captured: Target, log: seq<Message>, held: nat -> iset<nat>, p: nat, o: nat)
    requires InOrder(log, held) && Pending(captured, log) == map[]
    requires p in captured && o < captured[p] && o in held(p)
    ensures exists i :: 0 <= i < |log| && log[i].partition == p && log[i].offset == o
  {
    assert p !in Pending(captured, log);
    var i :| 0 <= i < |log| && log[i].partition == p && log[i].offset + 1 >= captured[p];
    if log[i].offset != o {
      assert o in held(log[i].partition);
    }
  }

  /**
   When the message below each captured end is still held, nothing is pending if and only if every message held below
   the ends has been delivered.
   */
  lemma PendingIffBehind(captured: Target, log: seq<Message>, held: nat -> iset<nat>)
    requires InOrder(log, held)
    requires forall p :: p in captured ==> captured[p] > 0 && captured[p] - 1 in held(p)
    ensures Pending(captured, log) == map[] <==>
            forall p, o: nat :: p in captured && o < captured[p] && o in held(p) ==> DeliveredAt(log, p, o)
  {
    if Pending(captured, log) == map[] {
      forall p, o: nat | p in captured && o < captured[p] && o in held(p) ensures DeliveredAt(log, p, o) {
        ReadyMeansCaughtUp(captured, log, held, p, o);
      }
    } else if forall p, o: nat :: p in captured && o < captured[p] && o in held(p) ==> DeliveredAt(log, p, o) {
      var p :| p in Pending(captured, log);
      assert DeliveredAt(log, p, captured[p] - 1);
      assert Reached(log, p, captured[p]);
    }
  }

  ghost predicate DeliveredAt(log: seq<Message>, p: nat, o: nat) {
    exists i :: 0 <= i < |log| && log[i].partition == p && log[i].offset == o
  }

  /** Reading on: a partition is struck off exactly when the new message reaches its end. */
  lemma PendingNext(captured: Target, log: seq<Message>, m: Message)
    ensures Pending(captured, log + [m]) ==
            if m.partition in Pending(captured, log) && m.offset + 1 >= captured[m.partition]
            then Pending(captured, log) - {m.partition} else Pending(captured, log)
  {
    var more := log + [m];
    forall p | p in captured
      ensures Reached(more, p, captured[p]) <==>
              Reached(log, p, captured[p]) || (p == m.partition && m.offset + 1 >= captured[p])
    {
      if Reached(log, p, captured[p]) {
        var i :| 0 <= i < |log| && log[i].partition == p && log[i].offset + 1 >= captured[p];
        assert more[i] == log[i];
      }
      assert more[|log|] == m;
    }
  }

  // ---- the consumer

  class Consumer {
    var zones: map<string, SlotAttributes>
    var slots: map<string, string>
    var ready: bool
    var target: Target
    /** How often the ready channel was closed; closing it twice would panic. */
    var closed: nat
    ghost const captured: Target
    ghost var seen: seq<Message>

    /** The cache is the replay of all it has seen, and it is ready exactly when nothing of its target is missing. */
    ghost predicate Valid()
      reads this
    {
      && View(zones, slots) == Replay(seen)
      && target == Pending(captured, seen)
      && (ready <==> target == map[])
      && closed == if ready then 1 else 0
    }

    /** A consumer with nothing to catch up with is ready at once. */
    constructor (captured: Target)
      ensures Valid() && seen == [] && this.captured == captured
    {
      zones, slots, ready, target, closed := map[], map[], false, captured, 0;
      this.captured, seen := captured, [];
      new;
      assert Pending(captured, []) == captured;
      if |target| == 0 {
        MarkReady();
      }
    }

    method MarkReady()
      modifies `ready, `closed
      ensures ready && closed == if old(ready) then old(closed) else old(closed) + 1
    {
      var alreadyReady := ready;
      ready := true;
      if !alreadyReady {
        closed := closed + 1;
      }
    }

    /** Update the cache from one event, or refuse it and change nothing. */
    method Apply(e: Payload) returns (refused: bool)
      modifies `zones, `slots
      ensures View(zones, slots) == Applied(old(View(zones, slots)), e) && (refused <==> Rejected(e))
      ensures refused <==> e.Malformed? || (e.ZoneRegistered? && e.zoneId == "") || (e.SlotRegistered? && e.code == "")
      ensures refused || e.Ignored? ==> zones == old(zones) && slots == old(slots)
    {
      match e
      case ZoneRegistered(id, hazmat, temperature) =>
        if id == "" {
          return true;
        }
        zones := zones[id := SlotAttributes(hazmat, ParsedTemperature(temperature), true)];
        return false;
      case SlotRegistered(code, zone) =>
        if code == "" {
          return true;
        }
        slots := slots[code := if zone == "" then ZoneOf(code) else zone];
        return false;
      case SlotDecommissioned(code) =>
        slots := slots - {code};
        return false;
      case Ignored =>
        return false;
      case Malformed =>
        return true;
    }

    /** Strike the partition off the target once its end is reached, and become ready when none is left. */
    method Observe(m: Message)
      requires target == Pending(captured, seen) && (ready <==> target == map[]) && closed == if ready then 1 else 0
      modifies `target, `ready, `closed, `seen
      ensures seen == old(seen) + [m] && target == Pending(captured, seen)
      ensures (ready <==> target == map[]) && closed == if ready then 1 else 0
    {
      PendingNext(captured, seen, m);
      if m.partition in target && m.offset + 1 >= target[m.partition] {
        target := target - {m.partition};
      }
      var done := |target| == 0;
      if done {
        MarkReady();
      }
      seen := seen + [m];
    }

    /** One turn of the consume loop: a refused message is dead-lettered, and observed all the same. */
    method Consume(m: Message) returns (deadLettered: bool)
      requires Valid()
      modifies this
      ensures Valid() && seen == old(seen) + [m] && (deadLettered <==> Rejected(m.payload))
      ensures old(ready) ==> ready && closed == old(closed)
    {
      assert (seen + [m])[..|seen|] == seen;
      PendingNext(captured, seen, m);
      deadLettered := Apply(m.payload);
      Observe(m);
    }

    /** Consume whatever arrives; however the partitions are interleaved, the cache is the replay of it all. */
    method Run(arriving: seq<Message>)
      requires Valid()
      modifies this
      ensures Valid() && seen == old(seen) + arriving
      ensures old(ready) ==> ready && closed == old(closed)
    {
      var i := 0;
      assert old(seen) + [] == old(seen);
      while i < |arriving|
        invariant 0 <= i <= |arriving| && Valid() && seen == old(seen) + arriving[..i]
        invariant old(ready) ==> ready && closed == old(closed)
      {
        var deadLettered := Consume(arriving[i]);
        assert arriving[..i + 1] == arriving[..i] + [arriving[i]];
        i := i + 1;
      }
      assert arriving[..i] == arriving;
    }

    /** What is known about a bin's slot, from memory alone. */
    method GetSlotAttributes(bin: BinId) returns (attrs: SlotAttributes)
      requires Valid()
      ensures attrs == Lookup(Replay(seen), bin)
    {
      if bin !in slots {
        return SlotAttributes(false, "", false);
      }
      var zone := slots[bin];
      if zone !in zones {
        return SlotAttributes(false, "", false);
      }
      return zones[zone];
    }
  }
}
