/** Before an OTLP/JSON export is decoded, a pass over its tokens rejects any id that is not hex text. */
module IdText {
  import opened Basics
  import HexIds

  datatype Json = Null | Str(s: string) | Scalar | Arr(items: seq<Json>) | Obj(members: seq<Member>)

  datatype Member = Member(name: string, value: Json)

  /** The part of the export's schema that leads to ids: an id, or a list of messages with fields. */
  datatype Field = Id | List(fields: map<string, Field>)

  const LinkFields: map<string, Field> := map["traceId" := Id, "trace_id" := Id, "spanId" := Id, "span_id" := Id]
  const SpanFields: map<string, Field> :=
    LinkFields + map["parentSpanId" := Id, "parent_span_id" := Id, "links" := List(LinkFields)]
  const ScopeSpansFields: map<string, Field> := map["spans" := List(SpanFields)]
  const ResourceSpansFields: map<string, Field> :=
    map["scopeSpans" := List(ScopeSpansFields), "scope_spans" := List(ScopeSpansFields)]
  const ExportFields: map<string, Field> :=
    map["resourceSpans" := List(ResourceSpansFields), "resource_spans" := List(ResourceSpansFields)]

  datatype TextError = NotAnObject | NotAnArray | NotAString | NotHex(id: string) | Unparsable

  type Verdict = Result<(), TextError>

  // ---- what the pass decides, on the document's tree ----

  function CheckId(v: Json): Verdict
  {
    match v
    case Null => Ok(())
    case Str(s) => if HexIds.DecodeHex(s).Ok? then Ok(()) else Err(NotHex(s))
    case _ => Err(NotAString)
  }

  function CheckField(v: Json, field: Option<Field>): Verdict
    decreases v, 1
  {
    match field
    case None => Ok(())
    case Some(Id) => CheckId(v)
    case Some(List(fields)) => CheckList(v, fields)
  }

  function CheckList(v: Json, fields: map<string, Field>): Verdict
    decreases v, 0
  {
    match v
    case Null => Ok(())
    case Arr(items) => CheckItems(items, fields)
    case _ => Err(NotAnArray)
  }

  /** The first error, if any. */
  function CheckItems(items: seq<Json>, fields: map<string, Field>): Verdict
    decreases items
  {
    if items == [] then Ok(())
    else
      var before := CheckItems(items[..|items| - 1], fields);
      if before.Err? then before else CheckObject(items[|items| - 1], fields)
  }

  function CheckObject(v: Json, fields: map<string, Field>): Verdict
    decreases v, 0
  {
    match v
    case Null => Ok(())
    case Obj(members) => CheckMembers(members, fields)
    case _ => Err(NotAnObject)
  }

  function Lookup(fields: map<string, Field>, name: string): Option<Field>
  {
    if name in fields then Some(fields[name]) else None
  }

  function CheckMembers(members: seq<Member>, fields: map<string, Field>): Verdict
    decreases members
  {
    if members == [] then Ok(())
    else
      var before := CheckMembers(members[..|members| - 1], fields);
      var last := members[|members| - 1];
      if before.Err? then before else CheckField(last.value, Lookup(fields, last.name))
  }

  // ---- tokens ----

  datatype Token = Open(list: bool) | Close(list: bool) | Text(s: string) | NullToken | Other

  function Tokens(v: Json): seq<Token>
  {
    match v
    case Null => [NullToken]
    case Str(s) => [Text(s)]
    case Scalar => [Other]
    case Arr(items) => [Open(true)] + ItemTokens(items) + [Close(true)]
    case Obj(members) => [Open(false)] + MemberTokens(members) + [Close(false)]
  }

  function ItemTokens(items: seq<Json>): seq<Token>
  {
    if items == [] then [] else Tokens(items[0]) + ItemTokens(items[1..])
  }

  function MemberTokens(members: seq<Member>): seq<Token>
  {
    if members == [] then [] else [Text(members[0].name)] + Tokens(members[0].value) + MemberTokens(members[1..])
  }

  /** rest is the tokens of v, and then after. */
  ghost predicate Starts(rest: seq<Token>, v: Json, after: seq<Token>)
  {
    rest == Tokens(v) + after
  }

  /** rest is the remaining items of a list, its end, and then after. */
  ghost predicate AtItem(rest: seq<Token>, items: seq<Json>, after: seq<Token>)
  {
    rest == ItemTokens(items) + [Close(true)] + after
  }

  ghost predicate AtMember(rest: seq<Token>, members: seq<Member>, after: seq<Token>)
  {
    rest == MemberTokens(members) + [Close(false)] + after
  }

  lemma {:induction false} FirstToken(v: Json)
    ensures |Tokens(v)| > 0 && !Tokens(v)[0].Close?
    ensures Tokens(v)[0] == match v
                            case Null => NullToken
                            case Str(s) => Text(s)
                            case Scalar => Other
                            case Arr(_) => Open(true)
                            case Obj(_) => Open(false)
  {
  }

  /** Reading the token that opens a value. */
  lemma {:induction false} Opened(rest: seq<Token>, rest': seq<Token>, t: Token, v: Json, after: seq<Token>)
    requires rest == [t] + rest' && Starts(rest, v, after)
    ensures match v
            case Null => t == NullToken && rest' == after
            case Str(s) => t == Text(s) && rest' == after
            case Scalar => t == Other && rest' == after
            case Arr(items) => t == Open(true) && AtItem(rest', items, after)
            case Obj(members) => t == Open(false) && AtMember(rest', members, after)
  {
    FirstToken(v);
    assert rest[0] == t && rest[1..] == rest';
    assert (Tokens(v) + after)[1..] == Tokens(v)[1..] + after;
    match v
    case Arr(items) => assert Tokens(v)[1..] == ItemTokens(items) + [Close(true)];
    case Obj(members) => assert Tokens(v)[1..] == MemberTokens(members) + [Close(false)];
    case _ =>
  }

  /** Where the items of a list stand: at one, or at the end. */
  lemma {:induction false} AtItemCases(rest: seq<Token>, items: seq<Json>, after: seq<Token>)
    requires AtItem(rest, items, after)
    ensures rest != []
    ensures if items == [] then rest == [Close(true)] + after
            else !rest[0].Close? && Starts(rest, items[0], ItemTokens(items[1..]) + [Close(true)] + after)
  {
    if items != [] { FirstToken(items[0]); }
  }

  lemma {:induction false} AtMemberCases(rest: seq<Token>, members: seq<Member>, after: seq<Token>)
    requires AtMember(rest, members, after)
    ensures rest != []
    ensures if members == [] then rest == [Close(false)] + after
            else rest[0] == Text(members[0].name)
                 && Starts(rest[1..], members[0].value, MemberTokens(members[1..]) + [Close(false)] + after)
  {
    if members != [] {
      var rest' := Tokens(members[0].value) + MemberTokens(members[1..]) + [Close(false)] + after;
      assert rest == [Text(members[0].name)] + rest';
    }
  }

  /** A decoder over a document's tokens. */
  class Decoder {
    const tokens: seq<Token>
    var pos: nat

    constructor (tokens: seq<Token>)
      ensures this.tokens == tokens && pos == 0
    {
      this.tokens := tokens;
      pos := 0;
    }

    /** What is still to be read. */
    ghost function Rest(): seq<Token>
      reads this
      requires pos <= |tokens|
    {
      tokens[pos..]
    }

    method Next() returns (t: Result<Token, TextError>)
      requires pos <= |tokens|
      modifies this
      ensures old(pos) <= pos <= |tokens|
      ensures t.Ok? ==> old(Rest()) == [t.value] + Rest() && pos == old(pos) + 1
      ensures t.Err? <==> old(Rest()) == []
      ensures t.Err? ==> t.error == Unparsable
    {
      if pos == |tokens| {
        return Err(Unparsable);
      }
      t := Ok(tokens[pos]);
      pos := pos + 1;
    }

    /** Whether another element follows in the current list or object. */
    predicate More()
      reads this
      requires pos <= |tokens|
    {
      pos < |tokens| && !tokens[pos].Close?
    }

    /** Reads one value without looking at it. */
    method Skip(ghost v: Json, ghost after: seq<Token>) returns (res: Verdict)
      requires pos <= |tokens|
      modifies this
      ensures old(pos) <= pos <= |tokens| && (res.Ok? ==> old(pos) < pos)
      ensures Starts(old(Rest()), v, after) ==> res == Ok(()) && Rest() == after
      decreases |tokens| - pos
    {
      hide Starts, AtItem, AtMember;
      ghost var good := Starts(Rest(), v, after);
      var t := Next();
      if t.Err? {
        Nonempty(old(Rest()), v, after);
        return Err(Unparsable);
      }
      if good { Opened(old(Rest()), Rest(), t.value, v, after); }
      if !t.value.Open? {
        return Ok(());
      }
      ghost var items := if good && v.Arr? then v.items else [];
      ghost var members := if good && v.Obj? then v.members else [];
      while More()
        invariant old(pos) < pos <= |tokens|
        invariant good && t.value.list ==> AtItem(Rest(), items, after)
        invariant good && !t.value.list ==> AtMember(Rest(), members, after)
        decreases |tokens| - pos
      {
        ghost var here := Rest();
        if t.value.list {
          if good { AtItemCases(here, items, after); }
          ghost var first := if items != [] then items[0] else Null;
          items := if items != [] then items[1..] else [];
          var one := Skip(first, ItemTokens(items) + [Close(true)] + after);
          if one.Err? { return one; }
          if good { AtItemNext(Rest(), items, after); }
        } else {
          if good { AtMemberCases(here, members, after); }
          var name := Next();
          if name.Err? { return Err(Unparsable); }
          ghost var first := if members != [] then members[0].value else Null;
          members := if members != [] then members[1..] else [];
          var one := Skip(first, MemberTokens(members) + [Close(false)] + after);
          if one.Err? { return one; }
          if good { AtMemberNext(Rest(), members, after); }
        }
      }
      ghost var there := Rest();
      if good && t.value.list { AtItemCases(there, items, after); }
      if good && !t.value.list { AtMemberCases(there, members, after); }
      var end := Next();
      if end.Err? { return Err(Unparsable); }
      return Ok(());
    }

    /** Reads an id, and rejects it unless it is hex or null. */
    method CheckHexString(ghost v: Json, ghost after: seq<Token>) returns (res: Verdict)
      requires pos <= |tokens|
      modifies this
      ensures old(pos) <= pos <= |tokens| && (res.Ok? ==> old(pos) < pos)
      ensures Starts(old(Rest()), v, after) ==> res == CheckId(v) && (res.Ok? ==> Rest() == after)
    {
      hide Starts;
      Nonempty(Rest(), v, after);
      ghost var good := Starts(Rest(), v, after);
      var t := Next();
      if t.Err? { return Err(Unparsable); }
      if good { Opened(old(Rest()), Rest(), t.value, v, after); }
      match t.value {
        case NullToken => return Ok(());
        case Text(s) =>
          var decoded := HexIds.DecodeHex(s);
          if decoded.Err? { return Err(NotHex(s)); }
          return Ok(());
        case _ => return Err(NotAString);
      }
    }

    /** Reads an object with fields, or null, and rejects any id under the fields that is not hex.
        Unknown fields are skipped unchecked. */
    method CheckIdText(fields: map<string, Field>, ghost v: Json, ghost after: seq<Token>) returns (res: Verdict)
      requires pos <= |tokens|
      modifies this
      ensures old(pos) <= pos <= |tokens| && (res.Ok? ==> old(pos) < pos)
      ensures Starts(old(Rest()), v, after) ==> res == CheckObject(v, fields) && (res.Ok? ==> Rest() == after)
      decreases |tokens| - pos, 5
    {
      hide Starts, AtItem, AtMember, CheckMembers, CheckField, MemberTokens;
      Nonempty(Rest(), v, after);
      ghost var good := Starts(Rest(), v, after);
      var t := Next();
      if t.Err? { return Err(Unparsable); }
      if good { Opened(old(Rest()), Rest(), t.value, v, after); }
      if t.value.NullToken? { return Ok(()); }
      if t.value != Open(false) { return Err(NotAnObject); }
      ghost var members := if good && v.Obj? then v.members else [];
      ghost var done: seq<Member> := [];
      NothingChecked(fields);
      while More()
        invariant old(pos) < pos <= |tokens|
        invariant good ==> AtMember(Rest(), members, after) && v.Obj? && v.members == done + members
        invariant good ==> CheckMembers(done, fields).Ok?
        decreases |tokens| - pos
      {
        ghost var here := Rest();
        if good { AtMemberCases(here, members, after); }
        ghost var first := if members != [] then members[0] else Member("", Null);
        ghost var rest := if members != [] then members[1..] else [];
        if good { assert members == [first] + rest; }
        var one := CheckMember(fields, first, rest, after);
        if good {
          MembersFirst(done, first, rest, fields);
          assert v.members == done + [first] + rest;
        }
        if one.Err? { return one; }
        done, members := done + [first], rest;
      }
      ghost var there := Rest();
      if good {
        AtMemberCases(there, members, after);
        assert v.members == done;
        OneOk(CheckMembers(done, fields));
      }
      var end := Next();
      if end.Err? { return Err(Unparsable); }
      return Ok(());
    }

    /** Reads a field's name and its value. */
    method CheckMember(fields: map<string, Field>, ghost m: Member, ghost rest: seq<Member>, ghost after: seq<Token>)
      returns (res: Verdict)
      requires pos <= |tokens|
      modifies this
      ensures old(pos) <= pos <= |tokens| && (res.Ok? ==> old(pos) < pos)
      ensures AtMember(old(Rest()), [m] + rest, after) ==>
                res == CheckField(m.value, Lookup(fields, m.name)) && (res.Ok? ==> AtMember(Rest(), rest, after))
      decreases |tokens| - pos, 4
    {
      hide Starts, AtMember, CheckField;
      ghost var good := AtMember(Rest(), [m] + rest, after);
      if good { AtMemberCases(Rest(), [m] + rest, after); }
      var token := Next();
      if token.Err? { return Err(Unparsable); }
      var name := if token.value.Text? then token.value.s else "";
      ghost var next := MemberTokens(rest) + [Close(false)] + after;
      if good { assert ([m] + rest)[1..] == rest && old(Rest())[1..] == Rest(); }
      res := CheckNamed(Lookup(fields, name), m.value, next);
      if good && res.Ok? { AtMemberNext(Rest(), rest, after); }
    }

    /** Reads the value of a field: skips it, or checks it as an id or as a list. */
    method CheckNamed(field: Option<Field>, ghost v: Json, ghost after: seq<Token>) returns (res: Verdict)
      requires pos <= |tokens|
      modifies this
      ensures old(pos) <= pos <= |tokens| && (res.Ok? ==> old(pos) < pos)
      ensures Starts(old(Rest()), v, after) ==> res == CheckField(v, field) && (res.Ok? ==> Rest() == after)
      decreases |tokens| - pos, 3
    {
      hide Starts;
      match field {
        case None => res := Skip(v, after);
        case Some(Id) => res := CheckHexString(v, after);
        case Some(List(fields)) => res := CheckIdTextList(fields, v, after);
      }
    }

    /** Reads a list of objects with fields, or null. */
    method CheckIdTextList(fields: map<string, Field>, ghost v: Json, ghost after: seq<Token>) returns (res: Verdict)
      requires pos <= |tokens|
      modifies this
      ensures old(pos) <= pos <= |tokens| && (res.Ok? ==> old(pos) < pos)
      ensures Starts(old(Rest()), v, after) ==> res == CheckList(v, fields) && (res.Ok? ==> Rest() == after)
      decreases |tokens| - pos, 2
    {
      hide Starts, AtItem, AtMember, CheckItems, CheckObject, ItemTokens;
      Nonempty(Rest(), v, after);
      ghost var good := Starts(Rest(), v, after);
      var t := Next();
      if t.Err? { return Err(Unparsable); }
      if good { Opened(old(Rest()), Rest(), t.value, v, after); }
      if t.value.NullToken? { return Ok(()); }
      if t.value != Open(true) { return Err(NotAnArray); }
      ghost var items := if good && v.Arr? then v.items else [];
      ghost var done: seq<Json> := [];
      NothingChecked(fields);
      while More()
        invariant old(pos) < pos <= |tokens|
        invariant good ==> AtItem(Rest(), items, after) && v.Arr? && v.items == done + items
        invariant good ==> CheckItems(done, fields).Ok?
        decreases |tokens| - pos
      {
        ghost var here := Rest();
        if good { AtItemCases(here, items, after); }
        ghost var first := if items != [] then items[0] else Null;
        ghost var rest := if items != [] then items[1..] else [];
        if good { assert items == [first] + rest; }
        var one := CheckIdText(fields, first, ItemTokens(rest) + [Close(true)] + after);
        if good {
          ItemsFirst(done, first, rest, fields);
          assert v.items == done + [first] + rest;
        }
        if one.Err? { return one; }
        done, items := done + [first], rest;
        if good { AtItemNext(Rest(), items, after); }
      }
      ghost var there := Rest();
      if good {
        AtItemCases(there, items, after);
        assert v.items == done;
        OneOk(CheckItems(done, fields));
      }
      var end := Next();
      if end.Err? { return Err(Unparsable); }
      return Ok(());
    }
  }

  lemma {:induction false} NothingChecked(fields: map<string, Field>)
    ensures CheckMembers([], fields).Ok? && CheckItems([], fields).Ok?
  {
  }

  lemma {:induction false} OneOk(v: Verdict)
    ensures v.Ok? ==> v == Ok(())
  {
    if v.Ok? { assert v.value == (); }
  }

  /** The first error decides. */
  lemma {:induction false} MembersFirst(done: seq<Member>, m: Member, rest: seq<Member>, fields: map<string, Field>)
    requires CheckMembers(done, fields).Ok?
    ensures CheckMembers(done + [m], fields) == CheckField(m.value, Lookup(fields, m.name))
    ensures CheckField(m.value, Lookup(fields, m.name)).Err? ==>
              CheckMembers(done + [m] + rest, fields) == CheckField(m.value, Lookup(fields, m.name))
  {
    assert (done + [m])[..|done|] == done;
    if rest == [] {
      assert done + [m] + rest == done + [m];
    } else {
      var all := done + [m] + rest;
      assert all[..|all| - 1] == done + [m] + rest[..|rest| - 1];
      MembersFirst(done, m, rest[..|rest| - 1], fields);
    }
  }

  lemma {:induction false} ItemsFirst(done: seq<Json>, v: Json, rest: seq<Json>, fields: map<string, Field>)
    requires CheckItems(done, fields).Ok?
    ensures CheckItems(done + [v], fields) == CheckObject(v, fields)
    ensures CheckObject(v, fields).Err? ==> CheckItems(done + [v] + rest, fields) == CheckObject(v, fields)
  {
    assert (done + [v])[..|done|] == done;
    if rest == [] {
      assert done + [v] + rest == done + [v];
    } else {
      var all := done + [v] + rest;
      assert all[..|all| - 1] == done + [v] + rest[..|rest| - 1];
      ItemsFirst(done, v, rest[..|rest| - 1], fields);
    }
  }

  lemma {:induction false} Nonempty(rest: seq<Token>, v: Json, after: seq<Token>)
    ensures Starts(rest, v, after) ==> rest != []
  {
    FirstToken(v);
  }

  lemma {:induction false} AtItemNext(rest: seq<Token>, items: seq<Json>, after: seq<Token>)
    requires rest == ItemTokens(items) + [Close(true)] + after
    ensures AtItem(rest, items, after)
  {
  }

  lemma {:induction false} AtMemberNext(rest: seq<Token>, members: seq<Member>, after: seq<Token>)
    requires rest == MemberTokens(members) + [Close(false)] + after
    ensures AtMember(rest, members, after)
  {
  }

  /** The pass over a whole export. */
  method CheckExport(tokens: seq<Token>, ghost v: Json) returns (res: Verdict)
    ensures tokens == Tokens(v) ==> res == CheckObject(v, ExportFields)
  {
    var decoder := new Decoder(tokens);
    ghost var rest := decoder.Rest();
    assert rest == tokens && Tokens(v) + [] == Tokens(v);
    res := decoder.CheckIdText(ExportFields, v, []);
  }

  // ---- what an accepted document guarantees ----

  /** A path of field names through lists to an id. */
  ghost predicate Reaches(v: Json, fields: map<string, Field>, id: Json)
    decreases v
  {
    v.Obj? && exists i: nat :: i < |v.members| && ReachesIn(v.members[i], Lookup(fields, v.members[i].name), id)
  }

  ghost predicate ReachesIn(m: Member, field: Option<Field>, id: Json)
    decreases m
  {
    && field.Some?
    && match field.value
       case Id => id == m.value
       case List(fields) => m.value.Arr? && exists k: nat :: k < |m.value.items| && Reaches(m.value.items[k], fields, id)
  }

  lemma {:induction false} ItemChecked(items: seq<Json>, k: nat, fields: map<string, Field>)
    requires k < |items| && CheckItems(items, fields).Ok?
    ensures CheckObject(items[k], fields).Ok?
  {
    if k < |items| - 1 { ItemChecked(items[..|items| - 1], k, fields); }
  }

  lemma {:induction false} MemberChecked(members: seq<Member>, k: nat, fields: map<string, Field>)
    requires k < |members| && CheckMembers(members, fields).Ok?
    ensures CheckField(members[k].value, Lookup(fields, members[k].name)).Ok?
  {
    if k < |members| - 1 { MemberChecked(members[..|members| - 1], k, fields); }
  }

  /** In a document that the pass accepts every id that the schema reaches, under either of its
      names and however often its name is repeated, is null or hex text. */
  lemma {:induction false} AcceptedIdsAreHex(v: Json, fields: map<string, Field>, id: Json)
    requires CheckObject(v, fields).Ok? && Reaches(v, fields, id)
    ensures id.Null? || (id.Str? && HexIds.CheckHexString(Some(id.s)).Ok?)
    decreases v
  {
    var i: nat :| i < |v.members| && ReachesIn(v.members[i], Lookup(fields, v.members[i].name), id);
    MemberChecked(v.members, i, fields);
    match Lookup(fields, v.members[i].name).value
    case Id =>
    case List(inner) =>
      var items := v.members[i].value.items;
      var k: nat :| k < |items| && Reaches(items[k], inner, id);
      ItemChecked(items, k, inner);
      AcceptedIdsAreHex(items[k], inner, id);
  }

  lemma {:induction false} ItemError(items: seq<Json>, fields: map<string, Field>) returns (k: nat)
    requires CheckItems(items, fields).Err?
    ensures k < |items| && CheckObject(items[k], fields) == CheckItems(items, fields)
  {
    if CheckItems(items[..|items| - 1], fields).Err? {
      k := ItemError(items[..|items| - 1], fields);
    } else {
      k := |items| - 1;
    }
  }

  lemma {:induction false} MemberError(members: seq<Member>, fields: map<string, Field>) returns (k: nat)
    requires CheckMembers(members, fields).Err?
    ensures k < |members|
    ensures CheckField(members[k].value, Lookup(fields, members[k].name)) == CheckMembers(members, fields)
  {
    if CheckMembers(members[..|members| - 1], fields).Err? {
      k := MemberError(members[..|members| - 1], fields);
    } else {
      k := |members| - 1;
    }
  }

  /** And text is called not hex only when it is, and stands where the schema reaches an id. */
  lemma {:induction false} RejectedIdIsReached(v: Json, fields: map<string, Field>, s: string)
    requires CheckObject(v, fields) == Err(NotHex(s))
    ensures Reaches(v, fields, Str(s)) && HexIds.CheckHexString(Some(s)).Err?
    decreases v
  {
    var i := MemberError(v.members, fields);
    var m := v.members[i];
    var field := Lookup(fields, m.name);
    match field.value
    case Id => assert ReachesIn(m, field, Str(s));
    case List(inner) =>
      var k := ItemError(m.value.items, inner);
      RejectedIdIsReached(m.value.items[k], inner, s);
      assert ReachesIn(m, field, Str(s));
  }
}
