/** Effect and wait events keep their id however much of the payload is cut away. */
module ReservedId {
  import opened Basics
  import opened Truncation

  function IdOnly(key: string, value: string): Json
  {
    Obj([Member(key, Str(value))])
  }

  /** The text prints an object in which the key stands once, with this value. */
  ghost predicate Holds(q: Quote, text: string, key: string, value: string)
  {
    exists ms :: text == Print(q, Obj(ms)) && Distinct(ms) && Member(key, Str(value)) in ms
  }

  /** What is asked of the parser: it reads the payload's own text as an object, the empty object as
      empty, and no value in the two bytes that a fallback leaves of the marker. No key comes twice in
      an object that it reads. */
  ghost predicate Reads(q: Quote, parse: Parser, payload: seq<Member>)
  {
    && parse(Print(q, Obj(payload))).Some? && parse(Print(q, Obj(payload))).value.Obj?
    && parse("{}") == Some(Obj([])) && parse("{\"").None?
    && forall text :: parse(text).Some? && parse(text).value.Obj? ==> Distinct(parse(text).value.members)
  }

  /** The members of text that is an object, and otherwise none. */
  function ParsePayloadObject(parse: Parser, text: string): seq<Member>
  {
    var parsed := parse(text);
    if parsed.Some? && parsed.value.Obj? then parsed.value.members else []
  }

  function Get(ms: seq<Member>, key: string): Option<Json>
  {
    if ms == [] then None else if ms[0].key == key then Some(ms[0].value) else Get(ms[1..], key)
  }

  function Delete(ms: seq<Member>, key: string): seq<Member>
  {
    if ms == [] then [] else if ms[0].key == key then ms[1..] else [ms[0]] + Delete(ms[1..], key)
  }

  /** Assignment changes no other key. */
  lemma {:induction false} SetKeeps(ms: seq<Member>, key: string, value: Json, m: Member)
    requires m.key != key
    ensures m in Set(ms, key, value) <==> m in ms
  {
    if ms != [] {
      assert ms == [ms[0]] + ms[1..];
      if ms[0].key != key { SetKeeps(ms[1..], key, value, m); }
    }
  }

  /** Deletion takes away the key's member and no other. */
  lemma {:induction false} DeleteKeeps(ms: seq<Member>, key: string, m: Member)
    requires Distinct(ms)
    ensures m in Delete(ms, key) <==> m in ms && m.key != key
  {
    if ms != [] {
      assert ms == [ms[0]] + ms[1..];
      RestDistinct(ms);
      if ms[0].key == key {
        if m in ms[1..] {
          var j :| 0 <= j < |ms[1..]| && ms[1..][j] == m;
          assert ms[j + 1] == m;
        }
      } else {
        DeleteKeeps(ms[1..], key, m);
      }
    }
  }

  /** Lookup finds the key's value. */
  lemma {:induction false} GetFinds(ms: seq<Member>, key: string, value: Json)
    requires Distinct(ms)
    ensures Get(ms, key) == Some(value) <==> Member(key, value) in ms
  {
    if ms != [] {
      assert ms == [ms[0]] + ms[1..];
      RestDistinct(ms);
      if ms[0].key == key {
        assert forall j: nat :: j < |ms[1..]| ==> ms[1..][j] == ms[j + 1] && ms[j + 1].key != key;
      } else {
        GetFinds(ms[1..], key, value);
      }
    }
  }

  lemma {:induction false} SetHolds(ms: seq<Member>, key: string, value: Json)
    ensures Member(key, value) in Set(ms, key, value)
  {
    if ms != [] && ms[0].key != key { SetHolds(ms[1..], key, value); }
  }

  lemma {:induction false} SetDistinct(ms: seq<Member>, key: string, value: Json)
    requires Distinct(ms)
    ensures Distinct(Set(ms, key, value))
    ensures forall i: nat :: i < |Set(ms, key, value)| && Set(ms, key, value)[i].key != key ==>
              exists j: nat :: j < |ms| && ms[j].key == Set(ms, key, value)[i].key
  {
    if ms != [] && ms[0].key != key {
      RestDistinct(ms);
      SetDistinct(ms[1..], key, value);
      var r := Set(ms[1..], key, value);
      forall i: nat | i < |r| && r[i].key != key ensures exists j: nat :: 0 < j < |ms| && ms[j].key == r[i].key {
        var j: nat :| j < |ms[1..]| && ms[1..][j].key == r[i].key;
        assert ms[j + 1].key == r[i].key;
      }
    }
  }

  lemma {:induction false} RestDistinct(ms: seq<Member>)
    requires Distinct(ms) && ms != []
    ensures Distinct(ms[1..])
  {
    forall i: nat, j: nat | i < j < |ms[1..]| ensures ms[1..][i].key != ms[1..][j].key {
      assert ms[i + 1].key != ms[j + 1].key;
    }
  }

  lemma {:induction false} MembersNotShorter(q: Quote, ms: seq<Member>, m: Member)
    requires m in ms
    ensures |PrintMembers(q, ms)| >= |PrintMember(q, m)|
  {
    if |ms| > 1 && m != ms[|ms| - 1] {
      MembersNotShorter(q, ms[..|ms| - 1], m);
    }
  }

  /** No object that holds the id is shorter than the one that holds only it. */
  lemma {:induction false} IdOnlyShortest(q: Quote, ms: seq<Member>, key: string, value: string)
    requires Member(key, Str(value)) in ms
    ensures |Print(q, IdOnly(key, value))| <= |Print(q, Obj(ms))|
  {
    MembersNotShorter(q, ms, Member(key, Str(value)));
    assert PrintMembers(q, [Member(key, Str(value))]) == PrintMember(q, Member(key, Str(value)));
    SizesPrinted(q, ms, []);
    SizesPrinted(q, [Member(key, Str(value))], []);
  }

  lemma {:induction false} ShortIsEmpty(q: Quote, ms: seq<Member>)
    ensures |Print(q, Obj(ms))| >= 2 && (|Print(q, Obj(ms))| == 2 ==> ms == [])
    ensures Print(q, Obj([])) == "{}"
  {
    SizesPrinted(q, ms, []);
    if ms != [] {
      MembersNotShorter(q, ms, ms[0]);
      assert |PrintMember(q, ms[0])| >= 1;
    }
  }

  /** At a budget of two bytes nothing of the payload is left. */
  lemma {:induction false} TwoBytesLeaveNothing(q: Quote, parse: Parser, payload: seq<Member>)
    requires Reads(q, parse, payload)
    ensures ParsePayloadObject(parse, TruncatedText(q, parse, Print(q, Obj(payload)), 2)) == []
  {
    var base := Print(q, Obj(payload));
    ShortIsEmpty(q, payload);
    assert Fallback[..2] == "{\"";
    var parsed := parse(base);
    assert parsed.Some? && parsed.value.Obj?;
    var truncated := TruncateValue(q, parsed.value, 2);
    assert truncated.Some? && truncated.value.Obj?;
    ShortIsEmpty(q, truncated.value.members);
  }

  lemma {:induction false} ParsedDistinct(q: Quote, parse: Parser, payload: seq<Member>, text: string)
    requires Reads(q, parse, payload)
    ensures Distinct(ParsePayloadObject(parse, text))
  {
  }

  /** What one attempt comes to: the payload truncated to a budget, with the id put in. */
  function Attempt(q: Quote, parse: Parser, payload: seq<Member>, key: string, value: string, budget: nat): string
  {
    Print(q, Obj(Set(ParsePayloadObject(parse, TruncatedText(q, parse, Print(q, Obj(payload)), budget)), key, Str(value))))
  }

  /** The room left beside the id, but at least what an empty object takes. */
  function FirstBudget(q: Quote, key: string, value: string, limit: nat): nat
  {
    var room := limit - (|Print(q, IdOnly(key, value))| - 1);
    if room < 2 then 2 else room
  }

  /** The text is that of the n-th attempt, the first one that fits, or the last one there is. */
  ghost predicate FirstThatFits(q: Quote, parsers: nat -> Parser, payload: seq<Member>, key: string, value: string, limit: nat, n: nat,
                                text: string)
  {
    var start := FirstBudget(q, key, value, limit);
    && n + 2 <= start && text == Attempt(q, parsers(n), payload, key, value, start - n)
    && (forall m: nat :: m < n ==> |Attempt(q, parsers(m), payload, key, value, start - m)| > limit)
    && (|text| <= limit || n + 2 == start)
  }

  /** Truncates the rest of the payload until it fits beside the id. Each attempt may visit the payload's
      members in another order, so each has a parser of its own. */
  method TruncatePayloadWithReservedString(q: Quote, parsers: nat -> Parser, payload: seq<Member>, key: string, value: string,
                                           maxBytes: int)
    returns (text: string)
    requires forall n :: Reads(q, parsers(n), payload)
    ensures Holds(q, text, key, value)
    ensures |text| <= Limit(maxBytes) <==> |Print(q, IdOnly(key, value))| <= Limit(maxBytes)
    ensures |text| > Limit(maxBytes) ==> text == Print(q, IdOnly(key, value))
    ensures exists n: nat :: FirstThatFits(q, parsers, payload, key, value, Limit(maxBytes), n, text)
  {
    hide Reads, TruncatedText, Print, Distinct;
    var base := Print(q, Obj(payload));
    var limit := Limit(maxBytes);
    var baseBudget := limit - (|Print(q, IdOnly(key, value))| - 1);
    if baseBudget < 2 {
      baseBudget := 2;
    }
    var attempt: nat := 0;
    while true
      invariant baseBudget >= 2 && attempt + baseBudget == FirstBudget(q, key, value, limit)
      invariant forall m: nat :: m < attempt ==>
                  |Attempt(q, parsers(m), payload, key, value, FirstBudget(q, key, value, limit) - m)| > limit
      decreases baseBudget
    {
      var parse := parsers(attempt);
      attempt := attempt + 1;
      var truncated := TruncateJSON(q, parse, base, baseBudget);
      var members := ParsePayloadObject(parse, truncated.data);
      if baseBudget == 2 { TwoBytesLeaveNothing(q, parse, payload); }
      ParsedDistinct(q, parse, payload, truncated.data);
      SetHolds(members, key, Str(value));
      SetDistinct(members, key, Str(value));
      IdOnlyShortest(q, Set(members, key, Str(value)), key, value);
      members := Set(members, key, Str(value));
      text := Print(q, Obj(members));
      assert text == Attempt(q, parse, payload, key, value, baseBudget);
      if |text| <= limit || baseBudget <= 2 {
        assert FirstThatFits(q, parsers, payload, key, value, limit, attempt - 1, text);
        return text;
      }
      baseBudget := baseBudget - 1;
    }
  }

  // ---- events ----

  function SemanticPayloadIdKey(eventType: string): string
  {
    if eventType == "effect" then "effect_id" else if eventType == "wait" then "wait_id" else ""
  }

  /** The id the payload brings, or else one derived from the event. */
  function SemanticPayloadIdValue(payload: seq<Member>, key: string, derived: string): string
  {
    match Get(payload, key)
    case Some(Str(s)) => if s != "" then s else derived
    case _ => derived
  }

  /** The payload without the id, which is what truncation may cut away. */
  function Rest(eventType: string, payload: Option<seq<Member>>): seq<Member>
  {
    Delete(if payload.Some? then payload.value else [], SemanticPayloadIdKey(eventType))
  }

  lemma {:induction false} NoneDistinct()
    ensures Distinct([])
  {
  }

  /** An id of its own is the event's id; only an event without one gets a derived id. */
  lemma {:induction false} OwnIdWins(payload: seq<Member>, key: string, derived: string)
    requires Distinct(payload)
    ensures forall s :: Member(key, Str(s)) in payload && s != "" ==> SemanticPayloadIdValue(payload, key, derived) == s
    ensures (forall s :: Member(key, Str(s)) in payload ==> s == "") ==> SemanticPayloadIdValue(payload, key, derived) == derived
  {
    forall s | Member(key, Str(s)) in payload && s != "" ensures SemanticPayloadIdValue(payload, key, derived) == s {
      GetFinds(payload, key, Str(s));
    }
    if Get(payload, key).Some? { GetFinds(payload, key, Get(payload, key).value); }
  }

  datatype Processed = Processed(data: Option<string>, truncated: bool)

  method ProcessPayload(q: Quote, parse: Parser, payload: Option<seq<Member>>, maxBytes: int) returns (r: Processed)
    ensures payload.None? ==> r == Processed(None, false)
    ensures payload.Some? ==>
              && r.data.Some? && |r.data.value| <= Limit(maxBytes)
              && (r.truncated <==> |Print(q, Obj(payload.value))| > Limit(maxBytes))
              && (!r.truncated ==> r.data.value == Print(q, Obj(payload.value)))
  {
    if payload.None? {
      return Processed(None, false);
    }
    var text := Print(q, Obj(payload.value));
    var truncated := TruncateJSON(q, parse, text, maxBytes);
    TruncatedTextWithin(q, parse, text, Limit(maxBytes));
    return Processed(Some(truncated.data), truncated.truncated);
  }

  /** An effect's or wait's payload holds its id, whatever its size; it is kept whole if it fits, and
      is within the limit whenever the id alone would be. */
  method ProcessEventPayload(q: Quote, parsers: nat -> Parser, eventType: string, payload: Option<seq<Member>>, derived: string,
                             maxBytes: int)
    returns (r: Processed)
    requires payload.Some? ==> Distinct(payload.value)
    requires SemanticPayloadIdKey(eventType) != "" ==> forall n :: Reads(q, parsers(n), Rest(eventType, payload))
    ensures SemanticPayloadIdKey(eventType) != "" ==>
              var key := SemanticPayloadIdKey(eventType);
              var base := if payload.Some? then payload.value else [];
              var id := SemanticPayloadIdValue(base, key, derived);
              var full := Print(q, Obj(Set(base, key, Str(id))));
              && r.data.Some? && Holds(q, r.data.value, key, id)
              && (forall s :: Member(key, Str(s)) in base && s != "" ==> Holds(q, r.data.value, key, s))
              && (r.truncated <==> |full| > Limit(maxBytes)) && (!r.truncated ==> r.data.value == full)
              && (|r.data.value| <= Limit(maxBytes) <==> |Print(q, IdOnly(key, id))| <= Limit(maxBytes))
    ensures SemanticPayloadIdKey(eventType) == "" && payload.Some? ==>
              r.data.Some? && |r.data.value| <= Limit(maxBytes)
  {
    hide Reads, Print, Distinct;
    var key := SemanticPayloadIdKey(eventType);
    if key == "" {
      r := ProcessPayload(q, parsers(0), payload, maxBytes);
      return;
    }
    var base := if payload.Some? then payload.value else [];
    var id := SemanticPayloadIdValue(base, key, derived);
    var full := Set(base, key, Str(id));
    NoneDistinct();
    OwnIdWins(base, key, derived);
    SetHolds(base, key, Str(id));
    SetDistinct(base, key, Str(id));
    IdOnlyShortest(q, full, key, id);
    var fullText := Print(q, Obj(full));
    if |fullText| <= Limit(maxBytes) {
      return Processed(Some(fullText), false);
    }
    base := Delete(base, key);
    var text := TruncatePayloadWithReservedString(q, parsers, base, key, id, maxBytes);
    return Processed(Some(text), true);
  }
}
