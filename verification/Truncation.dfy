/** Truncating a JSON payload to a size limit. Strings are byte strings; how they are quoted, and how
    text is parsed, are parameters, so every result here holds for any quoting that leaves the keys
    in question unescaped. */
module Truncation {
  import opened Basics

  datatype Json =
    | Null
    | Bool(value: bool)
    | Number(text: string)
    | Str(s: string)
    | Arr(items: seq<Json>)
    | Obj(members: seq<Member>)

  /** An object's members come in the order they are visited in; the same map may come in any. */
  datatype Member = Member(key: string, value: Json)

  type Quote = string -> string

  // ---- printing ----

  function Print(q: Quote, v: Json): string
  {
    match v
    case Null => "null"
    case Bool(b) => if b then "true" else "false"
    case Number(t) => t
    case Str(s) => q(s)
    case Arr(items) => "[" + PrintItems(q, items) + "]"
    case Obj(members) => "{" + PrintMembers(q, members) + "}"
  }

  function PrintItems(q: Quote, items: seq<Json>): string
  {
    if items == [] then ""
    else if |items| == 1 then Print(q, items[0])
    else PrintItems(q, items[..|items| - 1]) + "," + Print(q, items[|items| - 1])
  }

  function PrintMember(q: Quote, m: Member): string
  {
    q(m.key) + ":" + Print(q, m.value)
  }

  function PrintMembers(q: Quote, ms: seq<Member>): string
  {
    if ms == [] then ""
    else if |ms| == 1 then PrintMember(q, ms[0])
    else PrintMembers(q, ms[..|ms| - 1]) + "," + PrintMember(q, ms[|ms| - 1])
  }

  /** The key needs no escaping. */
  predicate Plain(q: Quote, key: string)
  {
    q(key) == "\"" + key + "\""
  }

  predicate PlainKeys(q: Quote, ms: seq<Member>)
  {
    forall i: nat :: i < |ms| ==> Plain(q, ms[i].key)
  }

  const Marker := "_truncated"
  const MarkerMember := Member(Marker, Bool(true))
  const MarkerObject := Obj([MarkerMember])
  const Fallback := "{\"_truncated\":true}"

  predicate Distinct(ms: seq<Member>)
  {
    forall i: nat, j: nat :: i < j < |ms| ==> ms[i].key != ms[j].key
  }

  /** Assignment to a key of a map. */
  function Set(ms: seq<Member>, key: string, value: Json): seq<Member>
  {
    if ms == [] then [Member(key, value)]
    else if ms[0].key == key then [Member(key, value)] + ms[1..]
    else [ms[0]] + Set(ms[1..], key, value)
  }

  // ---- what truncation comes to ----

  function Cut(s: string, limit: int): string
  {
    if |s| > limit then s[..if limit - 20 < 0 then 0 else limit - 20] + "...[truncated]" else s
  }

  /** Nothing for null. */
  function TruncateValue(q: Quote, v: Json, limit: int): Option<Json>
    decreases v, 1
  {
    match v
    case Obj(members) => Some(Obj(TruncateMembers(q, v, 0, limit, 2, [])))
    case Arr(items) => Some(Arr(TruncateItems(q, v, 0, limit, 2, [])))
    case Str(s) => Some(Str(Cut(s, limit)))
    case Null => None
    case _ => Some(v)
  }

  /** The members from the i-th on, with size used up by done. */
  function TruncateMembers(q: Quote, v: Json, i: nat, limit: int, size: int, done: seq<Member>): seq<Member>
    requires v.Obj? && i <= |v.members|
    decreases v, 0, |v.members| - i
  {
    if i == |v.members| then done
    else
      var m := v.members[i];
      var keySize := |m.key| + 4;
      var valSize := |Print(q, m.value)|;
      if size + keySize + valSize > limit then
        var truncated := TruncateValue(q, m.value, limit - size - keySize - 50);
        if truncated.Some? && size + keySize + |Print(q, truncated.value)| <= limit then
          TruncateMembers(q, v, i + 1, limit, size + keySize + |Print(q, truncated.value)| + 1,
                          done + [Member(m.key, truncated.value)])
        else Set(done, Marker, Bool(true))
      else TruncateMembers(q, v, i + 1, limit, size + keySize + valSize + 1, done + [m])
  }

  function TruncateItems(q: Quote, v: Json, i: nat, limit: int, size: int, done: seq<Json>): seq<Json>
    requires v.Arr? && i <= |v.items|
    decreases v, 0, |v.items| - i
  {
    if i == |v.items| then done
    else
      var item := v.items[i];
      var valSize := |Print(q, item)|;
      if size + valSize > limit then
        var truncated := TruncateValue(q, item, limit - size - 50);
        if truncated.Some? && size + |Print(q, truncated.value)| <= limit then done + [truncated.value]
        else done + [MarkerObject]
      else TruncateItems(q, v, i + 1, limit, size + valSize + 1, done + [item])
  }

  // ---- the loops ----

  method TruncateValueOf(q: Quote, v: Json, limit: int) returns (r: Option<Json>)
    ensures r == TruncateValue(q, v, limit)
    decreases v, 1
  {
    match v {
      case Obj(_) =>
        var members := TruncateObject(q, v, limit);
        return Some(Obj(members));
      case Arr(_) =>
        var items := TruncateArray(q, v, limit);
        return Some(Arr(items));
      case Str(s) => return Some(Str(Cut(s, limit)));
      case Null => return None;
      case _ => return Some(v);
    }
  }

  method TruncateObject(q: Quote, v: Json, limit: int) returns (result: seq<Member>)
    requires v.Obj?
    ensures result == TruncateMembers(q, v, 0, limit, 2, [])
    decreases v, 0
  {
    result := [];
    var currentSize := 2;
    var i: nat := 0;
    while i < |v.members|
      invariant i <= |v.members| && currentSize >= 2
      invariant TruncateMembers(q, v, 0, limit, 2, []) == TruncateMembers(q, v, i, limit, currentSize, result)
    {
      var m := v.members[i];
      var keySize := |m.key| + 4;
      var valSize := |Print(q, m.value)|;
      i := i + 1;
      if currentSize + keySize + valSize > limit {
        var truncated := TruncateValueOf(q, m.value, limit - currentSize - keySize - 50);
        if truncated.Some? && currentSize + keySize + |Print(q, truncated.value)| <= limit {
          result := result + [Member(m.key, truncated.value)];
          currentSize := currentSize + keySize + |Print(q, truncated.value)| + 1;
          continue;
        }
        result := Set(result, Marker, Bool(true));
        return;
      }
      result := result + [m];
      currentSize := currentSize + keySize + valSize + 1;
    }
  }

  method TruncateArray(q: Quote, v: Json, limit: int) returns (result: seq<Json>)
    requires v.Arr?
    ensures result == TruncateItems(q, v, 0, limit, 2, [])
    decreases v, 0
  {
    result := [];
    var currentSize := 2;
    var i: nat := 0;
    while i < |v.items|
      invariant i <= |v.items| && currentSize >= 2
      invariant TruncateItems(q, v, 0, limit, 2, []) == TruncateItems(q, v, i, limit, currentSize, result)
    {
      var item := v.items[i];
      var valSize := |Print(q, item)|;
      if currentSize + valSize > limit {
        var truncated := TruncateValueOf(q, item, limit - currentSize - 50);
        if truncated.Some? && currentSize + |Print(q, truncated.value)| <= limit {
          result := result + [truncated.value];
          break;
        }
        result := result + [MarkerObject];
        break;
      }
      result := result + [item];
      currentSize := currentSize + valSize + 1;
      i := i + 1;
    }
  }

  // ---- sizes ----

  function MemberSize(q: Quote, m: Member): nat
  {
    |PrintMember(q, m)|
  }

  function ObjSize(q: Quote, ms: seq<Member>): nat
  {
    |PrintMembers(q, ms)| + 2
  }

  function ArrSize(q: Quote, items: seq<Json>): nat
  {
    |PrintItems(q, items)| + 2
  }

  lemma {:induction false} SizesPrinted(q: Quote, ms: seq<Member>, items: seq<Json>)
    ensures |Print(q, Obj(ms))| == ObjSize(q, ms) && |Print(q, Arr(items))| == ArrSize(q, items)
  {
  }

  lemma {:induction false} ObjSizeAppend(q: Quote, ms: seq<Member>, m: Member)
    ensures ObjSize(q, ms + [m]) == ObjSize(q, ms) + MemberSize(q, m) + (if ms == [] then 0 else 1)
  {
    assert (ms + [m])[..|ms|] == ms;
  }

  lemma {:induction false} ArrSizeAppend(q: Quote, items: seq<Json>, v: Json)
    ensures ArrSize(q, items + [v]) == ArrSize(q, items) + |Print(q, v)| + (if items == [] then 0 else 1)
  {
    assert (items + [v])[..|items|] == items;
  }

  lemma {:induction false} PrintMembersFirst(q: Quote, m: Member, ms: seq<Member>)
    ensures |PrintMembers(q, [m] + ms)| == |PrintMember(q, m)| + |PrintMembers(q, ms)| + (if ms == [] then 0 else 1)
  {
    var all := [m] + ms;
    if ms != [] {
      assert all[..|all| - 1] == [m] + ms[..|ms| - 1];
      PrintMembersFirst(q, m, ms[..|ms| - 1]);
    }
  }

  /** Marking costs at most a comma and the marker member. */
  lemma {:induction false} SetMarkerSize(q: Quote, ms: seq<Member>)
    requires Plain(q, Marker)
    ensures |PrintMembers(q, Set(ms, Marker, Bool(true)))| <= |PrintMembers(q, ms)| + 17 + (if ms == [] then 0 else 1)
  {
    assert |q(Marker)| == 12;
    if ms != [] {
      assert ms == [ms[0]] + ms[1..];
      PrintMembersFirst(q, ms[0], ms[1..]);
      if ms[0].key == Marker {
        PrintMembersFirst(q, Member(Marker, Bool(true)), ms[1..]);
      } else {
        SetMarkerSize(q, ms[1..]);
        PrintMembersFirst(q, ms[0], Set(ms[1..], Marker, Bool(true)));
      }
    }
  }

  predicate HasKey(ms: seq<Member>, key: string)
  {
    exists i: nat :: i < |ms| && ms[i].key == key
  }

  lemma {:induction false} SetHasKey(ms: seq<Member>, key: string, value: Json)
    ensures HasKey(Set(ms, key, value), key)
    ensures Set(ms, key, value) != []
  {
    if ms == [] || ms[0].key == key {
      assert Set(ms, key, value)[0].key == key;
    } else {
      SetHasKey(ms[1..], key, value);
      var i: nat :| i < |Set(ms[1..], key, value)| && Set(ms[1..], key, value)[i].key == key;
      assert Set(ms, key, value)[i + 1].key == key;
    }
  }

  /** What the estimate keeps: it counts two bytes a member more than the object prints, less one. */
  ghost predicate Estimates(q: Quote, size: int, done: seq<Member>, limit: int)
  {
    if done == [] then size == 2 else ObjSize(q, done) == size - |done| - 1 && size <= limit + 1
  }

  lemma {:induction false} EstimatesNext(q: Quote, size: int, done: seq<Member>, limit: int, m: Member)
    requires Estimates(q, size, done, limit) && Plain(q, m.key) && size + |m.key| + 4 + |Print(q, m.value)| <= limit
    ensures Estimates(q, size + |m.key| + 4 + |Print(q, m.value)| + 1, done + [m], limit)
  {
    ObjSizeAppend(q, done, m);
    assert MemberSize(q, m) == |m.key| + 3 + |Print(q, m.value)|;
  }

  /** Stopping with all members in, or with the marker. */
  lemma {:induction false} EstimatesEnd(q: Quote, size: int, done: seq<Member>, limit: int)
    requires Estimates(q, size, done, limit) && limit >= 2 && Plain(q, Marker)
    ensures ObjSize(q, done) <= limit
    ensures ObjSize(q, Set(done, Marker, Bool(true))) <= limit + 17 && HasKey(Set(done, Marker, Bool(true)), Marker)
  {
    SetMarkerSize(q, done);
    SetHasKey(done, Marker, Bool(true));
  }

  lemma {:induction false} MembersWithin(q: Quote, v: Json, i: nat, limit: int, size: int, done: seq<Member>)
    requires v.Obj? && i <= |v.members| && limit >= 2 && PlainKeys(q, v.members) && Plain(q, Marker)
    requires Estimates(q, size, done, limit)
    ensures var r := TruncateMembers(q, v, i, limit, size, done);
            (!HasKey(r, Marker) ==> ObjSize(q, r) <= limit) && ObjSize(q, r) <= limit + 17
    decreases |v.members| - i
  {
    hide Estimates, ObjSize, HasKey, Set, Print;
    EstimatesEnd(q, size, done, limit);
    if i < |v.members| {
      var m := v.members[i];
      var keySize := |m.key| + 4;
      assert Plain(q, m.key);
      hide PlainKeys, Plain, TruncateValue;
      if size + keySize + |Print(q, m.value)| > limit {
        var truncated := TruncateValue(q, m.value, limit - size - keySize - 50);
        if truncated.Some? && size + keySize + |Print(q, truncated.value)| <= limit {
          EstimatesNext(q, size, done, limit, Member(m.key, truncated.value));
          MembersWithin(q, v, i + 1, limit, size + keySize + |Print(q, truncated.value)| + 1, done + [Member(m.key, truncated.value)]);
        }
      } else {
        EstimatesNext(q, size, done, limit, m);
        MembersWithin(q, v, i + 1, limit, size + keySize + |Print(q, m.value)| + 1, done + [m]);
      }
    }
  }

  /** For every object whose keys need no escaping, in every order of its members, and every limit
      from 2 on: a result without the marker prints within the limit, and one with it overshoots by
      at most 17 bytes. */
  lemma {:induction false} TruncatedObjectFits(q: Quote, v: Json, limit: int)
    requires v.Obj? && limit >= 2 && PlainKeys(q, v.members) && Plain(q, Marker)
    ensures var r := TruncateMembers(q, v, 0, limit, 2, []);
            (!HasKey(r, Marker) ==> |Print(q, Obj(r))| <= limit) && |Print(q, Obj(r))| <= limit + 17
  {
    MembersWithin(q, v, 0, limit, 2, []);
    SizesPrinted(q, TruncateMembers(q, v, 0, limit, 2, []), []);
  }

  ghost predicate EstimatesItems(q: Quote, size: int, done: seq<Json>, limit: int)
  {
    if done == [] then size == 2 else ArrSize(q, done) == size - 1 && size <= limit + 1
  }

  lemma {:induction false} ItemsWithin(q: Quote, v: Json, i: nat, limit: int, size: int, done: seq<Json>)
    requires v.Arr? && i <= |v.items| && limit >= 2 && Plain(q, Marker)
    requires EstimatesItems(q, size, done, limit)
    ensures var r := TruncateItems(q, v, i, limit, size, done);
            (MarkerObject !in r ==> ArrSize(q, r) <= limit) && ArrSize(q, r) <= limit + 20
    decreases |v.items| - i
  {
    if i < |v.items| {
      var item := v.items[i];
      ArrSizeAppend(q, done, item);
      if size + |Print(q, item)| > limit {
        var truncated := TruncateValue(q, item, limit - size - 50);
        if truncated.Some? { ArrSizeAppend(q, done, truncated.value); }
        ArrSizeAppend(q, done, MarkerObject);
        MarkerPrints(q);
        assert MarkerObject in done + [MarkerObject];
      } else {
        ItemsWithin(q, v, i + 1, limit, size + |Print(q, item)| + 1, done + [item]);
      }
    }
  }

  lemma {:induction false} MarkerPrints(q: Quote)
    requires Plain(q, Marker)
    ensures Print(q, MarkerObject) == Fallback && |Fallback| == 19
  {
    assert PrintMembers(q, [MarkerMember]) == PrintMember(q, MarkerMember);
    assert PrintMember(q, MarkerMember) == "\"_truncated\":" + Print(q, Bool(true));
    assert Print(q, Bool(true)) == "true";
  }

  /** For every array and every limit from 2 on, likewise, with 20 bytes. */
  lemma {:induction false} TruncatedArrayFits(q: Quote, v: Json, limit: int)
    requires v.Arr? && limit >= 2 && Plain(q, Marker)
    ensures var r := TruncateItems(q, v, 0, limit, 2, []);
            (MarkerObject !in r ==> |Print(q, Arr(r))| <= limit) && |Print(q, Arr(r))| <= limit + 20
  {
    ItemsWithin(q, v, 0, limit, 2, []);
    SizesPrinted(q, [], TruncateItems(q, v, 0, limit, 2, []));
  }

  // ---- what is kept ----

  ghost predicate CutDown(q: Quote, v: Json, w: Json)
  {
    w == v || exists limit :: TruncateValue(q, v, limit) == Some(w)
  }

  /** done keeps the first members under their keys, whole or cut down. */
  ghost predicate KeepsMembers(q: Quote, v: Json, done: seq<Member>)
    requires v.Obj?
  {
    |done| <= |v.members|
    && forall k: nat :: k < |done| ==> done[k].key == v.members[k].key && CutDown(q, v.members[k].value, done[k].value)
  }

  lemma {:induction false} KeepsOneMore(q: Quote, v: Json, done: seq<Member>, value: Json)
    requires v.Obj? && |done| < |v.members| && KeepsMembers(q, v, done) && CutDown(q, v.members[|done|].value, value)
    ensures KeepsMembers(q, v, done + [Member(v.members[|done|].key, value)])
  {
    hide CutDown;
  }

  /** One round of the loop over members. */
  lemma {:induction false} MembersStep(q: Quote, v: Json, i: nat, limit: int, size: int, done: seq<Member>)
    requires v.Obj? && i < |v.members|
    ensures var m := v.members[i]; var keySize := |m.key| + 4;
            var truncated := TruncateValue(q, m.value, limit - size - keySize - 50);
            TruncateMembers(q, v, i, limit, size, done) ==
            if size + keySize + |Print(q, m.value)| <= limit then
              TruncateMembers(q, v, i + 1, limit, size + keySize + |Print(q, m.value)| + 1, done + [m])
            else if truncated.Some? && size + keySize + |Print(q, truncated.value)| <= limit then
              TruncateMembers(q, v, i + 1, limit, size + keySize + |Print(q, truncated.value)| + 1, done + [Member(m.key, truncated.value)])
            else Set(done, Marker, Bool(true))
  {
  }

  lemma {:induction false} MembersEnd(q: Quote, v: Json, limit: int, size: int, done: seq<Member>)
    requires v.Obj?
    ensures TruncateMembers(q, v, |v.members|, limit, size, done) == done
  {
  }

  lemma {:induction false} IsCutDown(q: Quote, v: Json, limit: int)
    ensures CutDown(q, v, v)
    ensures TruncateValue(q, v, limit).Some? ==> CutDown(q, v, TruncateValue(q, v, limit).value)
  {
  }

  /** A truncated object keeps its first members under their keys, whole or cut down: all of them,
      or some and the marker. */
  lemma {:induction false} ObjectKeepsFirst(q: Quote, v: Json, i: nat, limit: int, size: int, done: seq<Member>) returns (kept: seq<Member>)
    requires v.Obj? && i <= |v.members| && |done| == i && KeepsMembers(q, v, done)
    ensures KeepsMembers(q, v, kept)
    ensures var r := TruncateMembers(q, v, i, limit, size, done);
            (r == kept && |kept| == |v.members|) || r == Set(kept, Marker, Bool(true))
    decreases |v.members| - i
  {
    hide KeepsMembers, Set, Print, CutDown, TruncateValue, TruncateMembers;
    kept := done;
    if i < |v.members| {
      var m := v.members[i];
      var keySize := |m.key| + 4;
      var truncated := TruncateValue(q, m.value, limit - size - keySize - 50);
      assert m == Member(m.key, m.value);
      MembersStep(q, v, i, limit, size, done);
      IsCutDown(q, m.value, limit - size - keySize - 50);
      if size + keySize + |Print(q, m.value)| <= limit {
        KeepsOneMore(q, v, done, m.value);
        kept := ObjectKeepsFirst(q, v, i + 1, limit, size + keySize + |Print(q, m.value)| + 1, done + [m]);
      } else if truncated.Some? && size + keySize + |Print(q, truncated.value)| <= limit {
        KeepsOneMore(q, v, done, truncated.value);
        kept := ObjectKeepsFirst(q, v, i + 1, limit, size + keySize + |Print(q, truncated.value)| + 1,
                                 done + [Member(m.key, truncated.value)]);
      }
    } else {
      MembersEnd(q, v, limit, size, done);
    }
  }

  /** The estimate once the first n members are taken whole. */
  function SizeOfFirst(q: Quote, ms: seq<Member>, n: nat): int
    requires n <= |ms|
  {
    if n == 0 then 2 else SizeOfFirst(q, ms, n - 1) + |ms[n - 1].key| + 4 + |Print(q, ms[n - 1].value)| + 1
  }

  predicate WholeFits(q: Quote, ms: seq<Member>, limit: int, k: nat)
    requires k < |ms|
  {
    SizeOfFirst(q, ms, k) + |ms[k].key| + 4 + |Print(q, ms[k].value)| <= limit
  }

  /** The first n members all fit by the estimate. */
  predicate FirstFit(q: Quote, ms: seq<Member>, limit: int, n: nat)
    requires n <= |ms|
  {
    forall k: nat :: k < n ==> WholeFits(q, ms, limit, k)
  }

  lemma {:induction false} MembersFrom(q: Quote, v: Json, limit: int, i: nat, n: nat)
    requires v.Obj? && i <= n <= |v.members| && FirstFit(q, v.members, limit, n)
    ensures TruncateMembers(q, v, i, limit, SizeOfFirst(q, v.members, i), v.members[..i])
            == TruncateMembers(q, v, n, limit, SizeOfFirst(q, v.members, n), v.members[..n])
    decreases n - i
  {
    if i < n {
      hide TruncateMembers, SizeOfFirst, WholeFits, Print;
      WholeMember(q, v, limit, i);
      MembersFrom(q, v, limit, i + 1, n);
    }
  }

  lemma {:induction false} WholeMember(q: Quote, v: Json, limit: int, i: nat)
    requires v.Obj? && i < |v.members|
    requires WholeFits(q, v.members, limit, i)
    ensures TruncateMembers(q, v, i, limit, SizeOfFirst(q, v.members, i), v.members[..i])
            == TruncateMembers(q, v, i + 1, limit, SizeOfFirst(q, v.members, i + 1), v.members[..i + 1])
  {
    MembersStep(q, v, i, limit, SizeOfFirst(q, v.members, i), v.members[..i]);
    hide TruncateMembers, Print, TruncateValue;
    assert v.members[..i + 1] == v.members[..i] + [v.members[i]];
  }

  /** Members are kept whole as long as they fit, and an object that fits is kept as it is. */
  lemma {:induction false} FittingMembersKept(q: Quote, ms: seq<Member>, limit: int, n: nat) returns (more: seq<Member>)
    requires n <= |ms| && FirstFit(q, ms, limit, n)
    ensures var r := TruncateMembers(q, Obj(ms), 0, limit, 2, []);
            if n == |ms| then r == ms else r == ms[..n] + more || r == Set(ms[..n] + more, Marker, Bool(true))
  {
    assert ms[..0] == [];
    MembersFrom(q, Obj(ms), limit, 0, n);
    more := [];
    if n == |ms| {
      MembersEnd(q, Obj(ms), limit, SizeOfFirst(q, ms, n), ms);
      assert ms[..n] == ms;
    } else {
      more := MembersAfter(q, Obj(ms), n, limit, SizeOfFirst(q, ms, n), ms[..n], []);
      assert ms[..n] + [] == ms[..n];
    }
  }

  lemma {:induction false} MembersAfter(q: Quote, v: Json, i: nat, limit: int, size: int, first: seq<Member>, done: seq<Member>)
    returns (more: seq<Member>)
    requires v.Obj? && i <= |v.members|
    ensures var r := TruncateMembers(q, v, i, limit, size, first + done);
            r == first + more || r == Set(first + more, Marker, Bool(true))
    decreases |v.members| - i
  {
    hide Set, Print, TruncateValue, TruncateMembers;
    more := done;
    if i < |v.members| {
      var m := v.members[i];
      var keySize := |m.key| + 4;
      var truncated := TruncateValue(q, m.value, limit - size - keySize - 50);
      MembersStep(q, v, i, limit, size, first + done);
      if size + keySize + |Print(q, m.value)| <= limit {
        assert first + done + [m] == first + (done + [m]);
        more := MembersAfter(q, v, i + 1, limit, size + keySize + |Print(q, m.value)| + 1, first, done + [m]);
      } else if truncated.Some? && size + keySize + |Print(q, truncated.value)| <= limit {
        var cut := Member(m.key, truncated.value);
        assert first + done + [cut] == first + (done + [cut]);
        more := MembersAfter(q, v, i + 1, limit, size + keySize + |Print(q, truncated.value)| + 1, first, done + [cut]);
      }
    } else {
      MembersEnd(q, v, limit, size, first + done);
    }
  }

  /** A truncated array is the whole array, or its first items and then one item cut down, or its
      first items and the marker. */
  lemma {:induction false} ArrayKeepsFirst(q: Quote, v: Json, i: nat, limit: int, size: int) returns (n: nat)
    requires v.Arr? && i <= |v.items|
    ensures i <= n <= |v.items|
    ensures var r := TruncateItems(q, v, i, limit, size, v.items[..i]);
            || (n == |v.items| && r == v.items)
            || r == v.items[..n] + [MarkerObject]
            || (n < |v.items| && |r| == n + 1 && r[..n] == v.items[..n] && CutDown(q, v.items[n], r[n]))
    decreases |v.items| - i
  {
    n := i;
    if i < |v.items| {
      var item := v.items[i];
      if size + |Print(q, item)| <= limit {
        assert v.items[..i + 1] == v.items[..i] + [item];
        n := ArrayKeepsFirst(q, v, i + 1, limit, size + |Print(q, item)| + 1);
      }
    } else {
      assert v.items[..i] == v.items;
    }
  }

  /** So an array, unlike an object, can lose items without the marker: a long string cut down to
      the ellipsis ends the result, whatever follows it. */
  lemma {:induction false} ArrayDropsUnmarked(q: Quote, s: string, rest: seq<Json>)
    requires |s| > 8 && |q(s)| > 58 && |q("...[truncated]")| <= 58
    ensures TruncateItems(q, Arr([Str(s)] + rest), 0, 60, 2, []) == [Str("...[truncated]")]
  {
    assert s[..0] == "";
    assert Cut(s, 8) == "...[truncated]";
    assert Print(q, Str(s)) == q(s);
    assert Print(q, Str("...[truncated]")) == q("...[truncated]");
    assert TruncateValue(q, Str(s), 8) == Some(Str("...[truncated]"));
  }

  /** The estimate once the first n items are taken whole. */
  function SizeUpTo(q: Quote, items: seq<Json>, n: nat): (size: int)
    requires n <= |items|
    ensures size >= 2
  {
    if n == 0 then 2 else SizeUpTo(q, items, n - 1) + |Print(q, items[n - 1])| + 1
  }

  predicate Overflows(q: Quote, items: seq<Json>, limit: int, i: nat)
    requires i < |items|
  {
    SizeUpTo(q, items, i) + |Print(q, items[i])| > limit
  }

  /** The first item that the estimate has no room for, or the end. */
  function FirstOverflow(q: Quote, items: seq<Json>, limit: int, i: nat): (n: nat)
    requires i <= |items|
    ensures i <= n <= |items|
    ensures n < |items| ==> Overflows(q, items, limit, n)
    ensures forall k: nat :: i <= k < n ==> !Overflows(q, items, limit, k)
    decreases |items| - i
  {
    if i == |items| || Overflows(q, items, limit, i) then i
    else FirstOverflow(q, items, limit, i + 1)
  }

  /** What is tried in the n-th item's place. */
  function TriedAt(q: Quote, items: seq<Json>, limit: int, n: nat): Option<Json>
    requires n < |items|
  {
    TruncateValue(q, items[n], limit - SizeUpTo(q, items, n) - 50)
  }

  predicate TriedFits(q: Quote, items: seq<Json>, limit: int, n: nat)
    requires n < |items|
  {
    var tried := TriedAt(q, items, limit, n);
    tried.Some? && SizeUpTo(q, items, n) + |Print(q, tried.value)| <= limit
  }

  /** One round of the loop over items, once the first i are taken whole. */
  lemma {:induction false} ItemsStep(q: Quote, v: Json, limit: int, i: nat)
    requires v.Arr? && i <= |v.items|
    ensures TruncateItems(q, v, i, limit, SizeUpTo(q, v.items, i), v.items[..i]) ==
            if i == |v.items| then v.items[..i]
            else if Overflows(q, v.items, limit, i) then
              v.items[..i] + [if TriedFits(q, v.items, limit, i) then TriedAt(q, v.items, limit, i).value else MarkerObject]
            else TruncateItems(q, v, i + 1, limit, SizeUpTo(q, v.items, i + 1), v.items[..i] + [v.items[i]])
  {
    hide Print, TruncateValue;
  }

  lemma {:induction false} ItemsFrom(q: Quote, v: Json, limit: int, i: nat)
    requires v.Arr? && i <= |v.items|
    ensures var n := FirstOverflow(q, v.items, limit, i);
            TruncateItems(q, v, i, limit, SizeUpTo(q, v.items, i), v.items[..i])
            == if n == |v.items| then v.items
               else v.items[..n] + [if TriedFits(q, v.items, limit, n) then TriedAt(q, v.items, limit, n).value else MarkerObject]
    decreases |v.items| - i
  {
    hide Print, TruncateItems, TriedFits, TriedAt, SizeUpTo, Overflows;
    ItemsStep(q, v, limit, i);
    if i == |v.items| {
      assert v.items[..i] == v.items;
    } else if !Overflows(q, v.items, limit, i) {
      assert v.items[..i + 1] == v.items[..i] + [v.items[i]];
      ItemsFrom(q, v, limit, i + 1);
    }
  }

  /** For every array and limit: the result loses items without ending in the marker exactly when the
      first item that overflows is not the last one and, cut down, fits as something else than the marker. */
  lemma {:induction false} ArrayUnmarkedIff(q: Quote, items: seq<Json>, limit: int)
    ensures var r := TruncateItems(q, Arr(items), 0, limit, 2, []); var n := FirstOverflow(q, items, limit, 0);
            |r| < |items| && (r == [] || r[|r| - 1] != MarkerObject)
            <==> n + 1 < |items| && TriedFits(q, items, limit, n) && TriedAt(q, items, limit, n) != Some(MarkerObject)
  {
    assert items[..0] == [];
    ItemsFrom(q, Arr(items), limit, 0);
  }

  // ---- whole payloads ----

  const DefaultMaxBytes := 65536

  datatype Truncated = Truncated(data: string, truncated: bool, originalSize: nat)

  type Parser = string -> Option<Json>

  /** Text that is some value's JSON. */
  ghost predicate ValidJson(q: Quote, text: string)
  {
    exists v :: WellFormed(v) && Print(q, v) == text
  }

  predicate Digits(s: string)
  {
    s != "" && forall i: nat :: i < |s| ==> '0' <= s[i] <= '9'
  }

  predicate IntPart(s: string)
  {
    Digits(s) && (s[0] == '0' ==> |s| == 1)
  }

  predicate FracPart(s: string)
  {
    s != "" ==> s[0] == '.' && Digits(s[1..])
  }

  predicate ExpPart(s: string)
  {
    s != "" ==>
      && (s[0] == 'e' || s[0] == 'E')
      && (Digits(s[1..]) || (|s| > 1 && (s[1] == '+' || s[1] == '-') && Digits(s[2..])))
  }

  /** The number grammar of section 6 of RFC 8259. */
  ghost predicate NumberText(t: string)
  {
    exists whole, frac, exp | IntPart(whole) && FracPart(frac) && ExpPart(exp) ::
      t == whole + frac + exp || t == "-" + whole + frac + exp
  }

  lemma {:induction false} NumberStarts(t: string)
    requires NumberText(t)
    ensures t != "" && (t[0] == '-' || '0' <= t[0] <= '9')
  {
  }

  /** All numbers in the value are numbers. */
  ghost predicate WellFormed(v: Json)
  {
    match v
    case Number(t) => NumberText(t)
    case Arr(items) => forall i :: 0 <= i < |items| ==> WellFormed(items[i])
    case Obj(members) => forall i :: 0 <= i < |members| ==> WellFormed(members[i].value)
    case _ => true
  }

  function Limit(maxBytes: int): nat
  {
    if maxBytes <= 0 then DefaultMaxBytes else maxBytes
  }

  /** The marker object's text, or as much of it as the limit leaves room for. */
  method RawTruncate(limit: nat) returns (text: string)
    ensures |text| <= limit && text <= Fallback
    ensures text == Fallback <==> limit >= 19
    ensures limit < 19 ==> |text| == limit
  {
    assert |Fallback| == 19;
    if limit < |Fallback| {
      return Fallback[..limit];
    }
    return Fallback;
  }

  /** What the structured attempt prints, if it fits. */
  function Structured(q: Quote, parse: Parser, data: string, limit: nat): Option<string>
  {
    var parsed := parse(data);
    if parsed.None? then None
    else
      var truncated := TruncateValue(q, parsed.value, limit);
      if truncated.Some? && |Print(q, truncated.value)| <= limit then Some(Print(q, truncated.value)) else None
  }

  function TruncatedText(q: Quote, parse: Parser, data: string, limit: nat): string
  {
    assert |Fallback| == 19;
    if |data| <= limit then data
    else
      var s := Structured(q, parse, data, limit);
      if s.Some? then s.value else if limit < 19 then Fallback[..limit] else Fallback
  }

  method TruncateJSON(q: Quote, parse: Parser, data: string, maxBytes: int) returns (r: Truncated)
    ensures r == Truncated(TruncatedText(q, parse, data, Limit(maxBytes)), |data| > Limit(maxBytes), |data|)
  {
    var limit: nat := if maxBytes <= 0 then DefaultMaxBytes else maxBytes;
    if |data| <= limit {
      return Truncated(data, false, |data|);
    }
    var parsed := parse(data);
    if parsed.Some? {
      var truncated := TruncateValueOf(q, parsed.value, limit);
      if truncated.Some? {
        var result := Print(q, truncated.value);
        if |result| <= limit {
          return Truncated(result, true, |data|);
        }
      }
    }
    var text := RawTruncate(limit);
    assert text == Fallback[..|text|] && |Fallback| == 19;
    return Truncated(text, true, |data|);
  }

  /** A payload over the limit that parses to a value whose truncation prints within the limit is replaced
      by just that print; otherwise by the marker object, or what there is room for. */
  lemma {:induction false} StructuredKept(q: Quote, parse: Parser, data: string, limit: nat, v: Json, w: Json)
    requires |data| > limit && parse(data) == Some(v)
    ensures TruncateValue(q, v, limit) == Some(w) && |Print(q, w)| <= limit ==> TruncatedText(q, parse, data, limit) == Print(q, w)
    ensures (TruncateValue(q, v, limit).None? || (TruncateValue(q, v, limit) == Some(w) && |Print(q, w)| > limit)) && limit >= 19 ==>
              TruncatedText(q, parse, data, limit) == Fallback
  {
  }

  /** A string that is too long keeps its front, 20 less than the limit, and ends in the ellipsis. */
  lemma {:induction false} CutKeepsFront(s: string, limit: int)
    ensures |s| <= limit ==> Cut(s, limit) == s
    ensures |s| > limit ==>
              var n := if limit < 20 then 0 else limit - 20;
              n <= |s| && Cut(s, limit) == s[..n] + "...[truncated]"
  {
  }

  /** The result never exceeds the limit. */
  lemma {:induction false} TruncatedTextWithin(q: Quote, parse: Parser, data: string, limit: nat)
    ensures |TruncatedText(q, parse, data, limit)| <= limit
  {
    assert |Fallback| == 19;
  }

  lemma {:induction false} TruncateKeepsWellFormed(q: Quote, v: Json, limit: int)
    requires WellFormed(v)
    ensures TruncateValue(q, v, limit).Some? ==> WellFormed(TruncateValue(q, v, limit).value)
    decreases v, 1
  {
    match v
    case Obj(_) => MembersWellFormed(q, v, 0, limit, 2, []);
    case Arr(_) => ItemsWellFormed(q, v, 0, limit, 2, []);
    case _ =>
  }

  lemma {:induction false} SetWellFormed(ms: seq<Member>, key: string, value: Json)
    requires WellFormed(Obj(ms)) && WellFormed(value)
    ensures WellFormed(Obj(Set(ms, key, value)))
  {
    if ms != [] && ms[0].key != key {
      assert WellFormed(Obj(ms[1..])) by {
        forall i | 0 <= i < |ms| - 1 ensures WellFormed(ms[1..][i].value) { assert ms[1..][i] == ms[i + 1]; }
      }
      SetWellFormed(ms[1..], key, value);
    }
  }

  lemma {:induction false} MembersWellFormed(q: Quote, v: Json, i: nat, limit: int, size: int, done: seq<Member>)
    requires v.Obj? && i <= |v.members| && WellFormed(v) && WellFormed(Obj(done))
    ensures WellFormed(Obj(TruncateMembers(q, v, i, limit, size, done)))
    decreases v, 0, |v.members| - i
  {
    if i < |v.members| {
      var m := v.members[i];
      var keySize := |m.key| + 4;
      SetWellFormed(done, Marker, Bool(true));
      if size + keySize + |Print(q, m.value)| > limit {
        var truncated := TruncateValue(q, m.value, limit - size - keySize - 50);
        TruncateKeepsWellFormed(q, m.value, limit - size - keySize - 50);
        if truncated.Some? && size + keySize + |Print(q, truncated.value)| <= limit {
          MembersWellFormed(q, v, i + 1, limit, size + keySize + |Print(q, truncated.value)| + 1,
                            done + [Member(m.key, truncated.value)]);
        }
      } else {
        MembersWellFormed(q, v, i + 1, limit, size + keySize + |Print(q, m.value)| + 1, done + [m]);
      }
    }
  }

  lemma {:induction false} ItemsWellFormed(q: Quote, v: Json, i: nat, limit: int, size: int, done: seq<Json>)
    requires v.Arr? && i <= |v.items| && WellFormed(v) && WellFormed(Arr(done))
    ensures WellFormed(Arr(TruncateItems(q, v, i, limit, size, done)))
    decreases v, 0, |v.items| - i
  {
    if i < |v.items| {
      var item := v.items[i];
      if size + |Print(q, item)| > limit {
        TruncateKeepsWellFormed(q, item, limit - size - 50);
      } else {
        ItemsWellFormed(q, v, i + 1, limit, size + |Print(q, item)| + 1, done + [item]);
      }
    }
  }

  predicate StartsQuoted(q: Quote, s: string)
  {
    "\"" <= q(s)
  }

  /** A proper prefix of the marker object is no value's JSON. */
  lemma {:induction false} ShortFallbackInvalid(q: Quote, n: nat)
    requires 0 < n < 19 && forall s :: StartsQuoted(q, s)
    ensures |Fallback| == 19 && !ValidJson(q, Fallback[..n])
  {
    var text := Fallback[..n];
    assert |Fallback| == 19;
    assert forall i: nat :: i < 18 ==> Fallback[i] != '}';
    assert text[0] == '{' && text[n - 1] != '}';
    forall v | WellFormed(v) ensures Print(q, v) != text {
      if v.Number? { NumberStarts(v.text); }
      if v.Str? { assert StartsQuoted(q, v.s); }
      assert v.Obj? ==> Print(q, v)[|Print(q, v)| - 1] == '}';
    }
  }

  /** A truncated result is valid JSON exactly when the limit leaves room for the marker object,
      which is 19 bytes, or the structured attempt fits. */
  lemma {:induction false} TruncatedTextValid(q: Quote, parse: Parser, data: string, limit: nat)
    requires Plain(q, Marker) && 0 < limit < |data| && forall s :: StartsQuoted(q, s)
    requires parse(data).Some? ==> WellFormed(parse(data).value)
    ensures ValidJson(q, TruncatedText(q, parse, data, limit)) <==> limit >= 19 || Structured(q, parse, data, limit).Some?
  {
    MarkerPrints(q);
    assert WellFormed(MarkerObject);
    if Structured(q, parse, data, limit).Some? {
      TruncateKeepsWellFormed(q, parse(data).value, limit);
    } else if limit < 19 {
      ShortFallbackInvalid(q, limit);
    }
  }
}
