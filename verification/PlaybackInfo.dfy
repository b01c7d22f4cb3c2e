/** Reading an AirPlay `/playback-info` reply (src/airplay.rs): a property list
    arrives as a flat stream of events and is read without building the tree. */
module PlaybackInfo {
  import opened Text
  import opened TimeText

  // ---- Property lists and their events --------------------------------------------

  datatype Value =
    | RealValue(r: real)
    | IntegerValue(n: int)
    | StringValue(s: string)
    | OtherValue
    | ArrayValue(items: Values)
    | DictionaryValue(entries: Entries)

  datatype Values = NoValues | MoreValues(first: Value, rest: Values)

  datatype Entries = NoEntries | MoreEntries(key: string, value: Value, rest: Entries)

  /** `Bad` is an event the reader below could not decode. */
  datatype Event =
    | Real(value: real)
    | Integer(n: int)
    | String(s: string)
    | Scalar
    | StartArray
    | StartDictionary
    | EndCollection
    | Bad

  function Flat(v: Value): seq<Event> {
    match v
    case RealValue(r) => [Real(r)]
    case IntegerValue(n) => [Integer(n)]
    case StringValue(s) => [String(s)]
    case OtherValue => [Scalar]
    case ArrayValue(items) => [StartArray] + (FlatValues(items) + [EndCollection])
    case DictionaryValue(entries) => [StartDictionary] + (FlatEntries(entries) + [EndCollection])
  }

  function FlatValues(items: Values): seq<Event> {
    match items case NoValues => [] case MoreValues(v, rest) => Flat(v) + FlatValues(rest)
  }

  function FlatEntries(entries: Entries): seq<Event> {
    match entries case NoEntries => [] case MoreEntries(k, v, rest) => [String(k)] + (Flat(v) + FlatEntries(rest))
  }

  // ---- Looking the answer up in the tree ----------------------------------------------

  const I64_MAX: int := 0x7FFF_FFFF_FFFF_FFFF
  const MAX_EVENTS: nat := 4096

  datatype Info = Info(position: real, duration: real, playing: bool)

  /** Unsigned integers past the signed range are no numbers here. */
  function Number(v: Value): Option<real> {
    match v
    case RealValue(r) => Some(r)
    case IntegerValue(n) => if n <= I64_MAX then Some(n as real) else None
    case _ => None
  }

  /** The last number stored under `name` in the dictionary itself. */
  function LastNumber(entries: Entries, name: string): Option<real> {
    match entries
    case NoEntries => None
    case MoreEntries(k, v, rest) =>
      var later := LastNumber(rest, name);
      if later.Some? then later else if k == name then Number(v) else None
  }

  predicate HasKey(entries: Entries, name: string) {
    entries.MoreEntries? && (entries.key == name || HasKey(entries.rest, name))
  }

  function OrElse(v: Option<real>, otherwise: real): real {
    match v case Some(r) => r case None => otherwise
  }

  function Lookup(entries: Entries): Option<Info> {
    if HasKey(entries, "error") then None
    else
      Some(Info(MediaSeconds(OrElse(LastNumber(entries, "position"), 0.0)),
                MediaSeconds(OrElse(LastNumber(entries, "duration"), 0.0)),
                OrElse(LastNumber(entries, "rate"), 0.0) > 0.0))
  }

  // ---- The reader ------------------------------------------------------------------------

  datatype Seen = Seen(depth: nat, key: Option<string>, position: real, duration: real, rate: real)

  datatype Outcome = Go(seen: Seen) | Break(seen: Seen) | Fail

  const START := Seen(1, None, 0.0, 0.0, 0.0)

  function EventNumber(e: Event): Option<real> {
    match e
    case Real(r) => Some(r)
    case Integer(n) => if n <= I64_MAX then Some(n as real) else None
    case _ => None
  }

  function Store(s: Seen, name: string, number: Option<real>): Seen {
    match number
    case None => s
    case Some(x) =>
      if name == "position" then s.(position := x)
      else if name == "duration" then s.(duration := x)
      else if name == "rate" then s.(rate := x)
      else s
  }

  function Step(s: Seen, e: Event): Outcome {
    if e.Bad? then Fail
    else if s.depth > 1 then
      match e
      case StartArray | StartDictionary => Go(s.(depth := s.depth + 1))
      case EndCollection => Go(s.(depth := s.depth - 1))
      case _ => Go(s)
    else match s.key
      case None =>
        (match e
         case String(name) => Go(s.(key := Some(name)))
         case EndCollection => Break(s)
         case _ => Fail)
      case Some(name) =>
        if name == "error" then Fail
        else
          Go(Store(s.(key := None, depth := if e.StartArray? || e.StartDictionary? then s.depth + 1 else s.depth),
                   name, EventNumber(e)))
  }

  function Steps(s: Seen, events: seq<Event>): Outcome {
    if events == [] then Go(s)
    else match Steps(s, events[..|events| - 1])
      case Go(t) => Step(t, events[|events| - 1])
      case other => other
  }

  function Result(s: Seen): Info {
    Info(MediaSeconds(s.position), MediaSeconds(s.duration), s.rate > 0.0)
  }

  /** What the reader makes of any event stream, well-formed or not. */
  function Parse(events: seq<Event>): Option<Info> {
    if events == [] || !events[0].StartDictionary? then None
    else
      var rest := events[1..];
      match Steps(START, rest[..if |rest| < MAX_EVENTS then |rest| else MAX_EVENTS])
      case Fail => None
      case Break(s) => Some(Result(s))
      case Go(s) => if |rest| > MAX_EVENTS then None else Some(Result(s))
  }

  method ParsePlaybackInfo(events: seq<Event>) returns (r: Option<Info>)
    ensures r == Parse(events)
  {
    if events == [] || !events[0].StartDictionary? {
      return None;
    }
    var rest := events[1..];
    var position, duration, rate, depth, key := 0.0, 0.0, 0.0, 1, None;
    var count := 0;
    while count < |rest|
      invariant count <= |rest| && count <= MAX_EVENTS && 1 <= depth
      invariant Steps(START, rest[..count]) == Go(Seen(depth, key, position, duration, rate))
    {
      if count >= MAX_EVENTS {
        return None;
      }
      var event := rest[count];
      ghost var bound := if |rest| < MAX_EVENTS then |rest| else MAX_EVENTS;
      ghost var was := Seen(depth, key, position, duration, rate);
      StepNext(rest, count, was);
      count := count + 1;
      if event.Bad? {
        Stopped(rest, bound, count);
        return None;
      }
      if depth > 1 {
        match event {
          case StartArray => depth := depth + 1;
          case StartDictionary => depth := depth + 1;
          case EndCollection => depth := depth - 1;
          case _ =>
        }
        continue;
      }
      if key.None? {
        if event.String? {
          key := Some(event.s);
          continue;
        }
        Stopped(rest, bound, count);
        if event.EndCollection? {
          break;
        }
        return None;
      }
      var name := key.value;
      key := None;
      if name == "error" {
        Stopped(rest, bound, count);
        return None;
      }
      var number := EventNumber(event);
      if event.StartArray? || event.StartDictionary? {
        depth := depth + 1;
      }
      if number.Some? {
        match name {
          case "position" => position := number.value;
          case "duration" => duration := number.value;
          case "rate" => rate := number.value;
          case _ =>
        }
      }
    }
    r := Some(Info(MediaSeconds(position), MediaSeconds(duration), rate > 0.0));
  }

  lemma StepNext(events: seq<Event>, i: nat, s: Seen)
    requires i < |events| && Steps(START, events[..i]) == Go(s)
    ensures Steps(START, events[..i + 1]) == Step(s, events[i])
  {
    assert events[..i + 1][..i] == events[..i];
  }

  /** Once the reader has stopped it stays stopped. */
  lemma {:induction false} StepsStop(s: Seen, events: seq<Event>, i: nat)
    requires i <= |events| && !Steps(s, events[..i]).Go?
    ensures Steps(s, events) == Steps(s, events[..i])
  {
    if i == |events| {
      assert events[..i] == events;
    } else {
      assert events[..|events| - 1][..i] == events[..i];
      StepsStop(s, events[..|events| - 1], i);
    }
  }

  lemma Stopped(events: seq<Event>, bound: nat, i: nat)
    requires i <= bound <= |events| && !Steps(START, events[..i]).Go?
    ensures Steps(START, events[..bound]) == Steps(START, events[..i])
  {
    assert events[..bound][..i] == events[..i];
    StepsStop(START, events[..bound], i);
  }

  lemma {:induction false} StepsAppend(s: Seen, a: seq<Event>, b: seq<Event>)
    ensures Steps(s, a + b) == match Steps(s, a) case Go(t) => Steps(t, b) case other => other
  {
    if b == [] {
      assert a + b == a;
    } else {
      StepsAppend(s, a, b[..|b| - 1]);
      assert (a + b)[..|a + b| - 1] == a + b[..|b| - 1];
      assert (a + b)[|a + b| - 1] == b[|b| - 1];
    }
  }

  lemma StepsOne(s: Seen, e: Event)
    ensures Steps(s, [e]) == Step(s, e)
  {
    assert [e][..0] == [];
  }

  // ---- The reader agrees with the tree --------------------------------------------------

  /** Whatever is nested, at any depth, passes unread. */
  lemma {:induction false} SkipsValue(s: Seen, v: Value)
    requires s.depth > 1
    ensures Steps(s, Flat(v)) == Go(s)
    decreases v
  {
    hide Steps;
    match v
    case ArrayValue(items) =>
      SkipsValues(s.(depth := s.depth + 1), items);
      Wrapped(s, StartArray, FlatValues(items));
    case DictionaryValue(entries) =>
      SkipsEntries(s.(depth := s.depth + 1), entries);
      Wrapped(s, StartDictionary, FlatEntries(entries));
    case _ => StepsOne(s, Flat(v)[0]);
  }

  lemma Wrapped(s: Seen, e: Event, inside: seq<Event>)
    requires s.depth > 1 && (e.StartArray? || e.StartDictionary?)
    requires Steps(s.(depth := s.depth + 1), inside) == Go(s.(depth := s.depth + 1))
    ensures Steps(s, [e] + (inside + [EndCollection])) == Go(s)
  {
    hide Steps;
    var deep := s.(depth := s.depth + 1);
    StepsOne(s, e);
    StepsOne(deep, EndCollection);
    StepsAppend(deep, inside, [EndCollection]);
    StepsAppend(s, [e], inside + [EndCollection]);
  }

  lemma {:induction false} SkipsValues(s: Seen, items: Values)
    requires s.depth > 1
    ensures Steps(s, FlatValues(items)) == Go(s)
    decreases items
  {
    if items.MoreValues? {
      SkipsValue(s, items.first);
      SkipsValues(s, items.rest);
      StepsAppend(s, Flat(items.first), FlatValues(items.rest));
    }
  }

  lemma {:induction false} SkipsEntries(s: Seen, entries: Entries)
    requires s.depth > 1
    ensures Steps(s, FlatEntries(entries)) == Go(s)
    decreases entries
  {
    hide Steps;
    if entries.MoreEntries? {
      var value, rest := Flat(entries.value), FlatEntries(entries.rest);
      SkipsValue(s, entries.value);
      SkipsEntries(s, entries.rest);
      StepsOne(s, String(entries.key));
      StepsAppend(s, value, rest);
      StepsAppend(s, [String(entries.key)], value + rest);
    } else {
      StepsNone(s);
    }
  }

  lemma StepsNone(s: Seen)
    ensures Steps(s, []) == Go(s)
  {
  }

  predicate AtTop(s: Seen) {
    s.depth == 1 && s.key.None?
  }

  /** The value of a top-level key: stored when it is a number, else passed over. */
  lemma TopValue(s: Seen, name: string, v: Value)
    requires AtTop(s) && name != "error"
    ensures Steps(s.(key := Some(name)), Flat(v)) == Go(Store(s, name, Number(v)))
  {
    hide Steps;
    var keyed := s.(key := Some(name));
    var deep := s.(depth := 2);
    match v
    case ArrayValue(items) =>
      SkipsValues(deep, items);
      TopWrapped(s, name, StartArray, FlatValues(items));
    case DictionaryValue(entries) =>
      SkipsEntries(deep, entries);
      TopWrapped(s, name, StartDictionary, FlatEntries(entries));
    case _ => StepsOne(keyed, Flat(v)[0]);
  }

  lemma TopWrapped(s: Seen, name: string, e: Event, inside: seq<Event>)
    requires AtTop(s) && name != "error" && (e.StartArray? || e.StartDictionary?)
    requires Steps(s.(depth := 2), inside) == Go(s.(depth := 2))
    ensures Steps(s.(key := Some(name)), [e] + (inside + [EndCollection])) == Go(s)
  {
    hide Steps;
    var keyed, deep := s.(key := Some(name)), s.(depth := 2);
    StepsOne(keyed, e);
    StepsOne(deep, EndCollection);
    StepsAppend(deep, inside, [EndCollection]);
    StepsAppend(keyed, [e], inside + [EndCollection]);
  }

  /** The first event of a value under `error` refuses the reply. */
  lemma {:induction false} ErrorKey(s: Seen, v: Value)
    requires AtTop(s)
    ensures Steps(s.(key := Some("error")), Flat(v)) == Fail
  {
    hide Steps, Flat;
    FlatNonempty(v);
    var keyed := s.(key := Some("error"));
    StepsOne(keyed, Flat(v)[0]);
    StepsAppend(keyed, [Flat(v)[0]], Flat(v)[1..]);
    assert [Flat(v)[0]] + Flat(v)[1..] == Flat(v);
  }

  lemma FlatNonempty(v: Value)
    ensures Flat(v) != []
  {
  }

  function Gather(s: Seen, entries: Entries): Seen {
    s.(position := OrElse(LastNumber(entries, "position"), s.position),
       duration := OrElse(LastNumber(entries, "duration"), s.duration),
       rate := OrElse(LastNumber(entries, "rate"), s.rate))
  }

  lemma {:induction false} TopEntries(s: Seen, entries: Entries)
    requires AtTop(s)
    ensures Steps(s, FlatEntries(entries)) == if HasKey(entries, "error") then Fail else Go(Gather(s, entries))
    decreases entries
  {
    hide Steps, Flat;
    match entries
    case NoEntries => StepsNone(s);
    case MoreEntries(k, v, rest) =>
      var keyed := s.(key := Some(k));
      StepsOne(s, String(k));
      StepsAppend(s, [String(k)], Flat(v) + FlatEntries(rest));
      StepsAppend(keyed, Flat(v), FlatEntries(rest));
      if k == "error" {
        ErrorKey(s, v);
      } else {
        TopValue(s, k, v);
        TopEntries(Store(s, k, Number(v)), rest);
      }
  }

  /** For every dictionary, whatever follows it: within the event cap the reader
      answers what a lookup in the tree answers, beyond the cap nothing. */
  lemma ParsedIsLookup(entries: Entries, after: seq<Event>)
    ensures Parse(Flat(DictionaryValue(entries)) + after)
         == if |FlatEntries(entries)| < 4096 then Lookup(entries) else None
  {
    hide Steps, Flat, FlatEntries, HasKey, LastNumber;
    var inside := FlatEntries(entries);
    var rest := inside + ([EndCollection] + after);
    FlatDictionary(entries);
    assert ([StartDictionary] + (inside + [EndCollection])) + after == [StartDictionary] + rest;
    assert ([StartDictionary] + rest)[1..] == rest;
    TopEntries(START, entries);
    if |inside| < MAX_EVENTS {
      Closed(START, inside, after);
    } else {
      assert rest[..MAX_EVENTS] == inside[..MAX_EVENTS];
      if !Steps(START, inside[..MAX_EVENTS]).Go? {
        StepsStop(START, inside, MAX_EVENTS);
      }
    }
  }

  lemma FlatDictionary(entries: Entries)
    ensures Flat(DictionaryValue(entries)) == [StartDictionary] + (FlatEntries(entries) + [EndCollection])
  {
  }

  /** After the closing event nothing is read. */
  lemma Closed(s: Seen, inside: seq<Event>, after: seq<Event>)
    requires |inside| < MAX_EVENTS && (Steps(s, inside).Fail? || (Steps(s, inside).Go? && AtTop(Steps(s, inside).seen)))
    ensures var rest := inside + ([EndCollection] + after);
      Steps(s, rest[..if |rest| < MAX_EVENTS then |rest| else MAX_EVENTS])
      == match Steps(s, inside) case Go(t) => Break(t) case other => other
  {
    hide Steps;
    var rest := inside + ([EndCollection] + after);
    var bound := if |rest| < MAX_EVENTS then |rest| else MAX_EVENTS;
    var upTo := inside + [EndCollection];
    assert rest[..bound][..|upTo|] == upTo;
    StepsAppend(s, inside, [EndCollection]);
    if Steps(s, inside).Go? {
      StepsOne(Steps(s, inside).seen, EndCollection);
    }
    StepsStop(s, rest[..bound], |upTo|);
  }

  /** A reply cut off after complete entries is still answered from those. */
  lemma CutOffIsLookup(entries: Entries)
    requires |FlatEntries(entries)| <= MAX_EVENTS
    ensures Parse([StartDictionary] + FlatEntries(entries)) == Lookup(entries)
  {
    hide Steps, Flat, FlatEntries, HasKey, LastNumber;
    var inside := FlatEntries(entries);
    assert ([StartDictionary] + inside)[1..] == inside;
    assert inside[..|inside|] == inside;
    TopEntries(START, entries);
  }

  /** Any reply that is not a dictionary is refused. */
  lemma OnlyDictionaries(v: Value, after: seq<Event>)
    requires !v.DictionaryValue?
    ensures Parse(Flat(v) + after) == None
  {
    FlatNonempty(v);
  }

  // ---- The lookup, read as a statement about the dictionary -------------------------------

  function At(entries: Entries, i: nat): Option<(string, Value)> {
    match entries
    case NoEntries => None
    case MoreEntries(k, v, rest) => if i == 0 then Some((k, v)) else At(rest, i - 1)
  }

  predicate NumberAt(entries: Entries, name: string, i: nat) {
    At(entries, i).Some? && At(entries, i).value.0 == name && Number(At(entries, i).value.1).Some?
  }

  /** It is the number at the last position that has one under that name. */
  lemma {:induction false} LastNumberIsLast(entries: Entries, name: string, i: nat)
    ensures NumberAt(entries, name, i) && (forall j: nat :: i < j ==> !NumberAt(entries, name, j))
            ==> LastNumber(entries, name) == Number(At(entries, i).value.1)
    ensures (forall j: nat :: !NumberAt(entries, name, j)) ==> LastNumber(entries, name).None?
    decreases entries
  {
    match entries
    case NoEntries =>
    case MoreEntries(k, v, rest) =>
      forall j: nat ensures NumberAt(rest, name, j) <==> NumberAt(entries, name, j + 1) {
      }
      assert NumberAt(entries, name, 0) <==> k == name && Number(v).Some?;
      if i == 0 {
        LastNumberIsLast(rest, name, 0);
      } else {
        assert forall j: nat :: i - 1 < j && NumberAt(rest, name, j) ==> NumberAt(entries, name, j + 1);
        LastNumberIsLast(rest, name, i - 1);
      }
  }
}
