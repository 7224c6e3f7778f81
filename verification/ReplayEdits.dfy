/** Path edits on a captured request body before it is replayed (internal/replay/edit.go). */
module ReplayEdits {
  import opened Prelude

  datatype Json =
    | Null
    | Bool(b: bool)
    | Number(literal: string)
    | Str(text: string)
    | Obj(fields: map<string, Json>)
    | Arr(items: seq<Json>)

  // ---------- what encoding/json reads and writes ----------

  predicate IsDigit(c: char) {
    '0' <= c <= '9'
  }

  /** The end of the run of digits that starts at `i`. */
  function DigitsEnd(s: string, i: nat): (k: nat)
    requires i <= |s|
    ensures i <= k <= |s|
    decreases |s| - i
  {
    if i < |s| && IsDigit(s[i]) then DigitsEnd(s, i + 1) else i
  }

  function FractionEnd(s: string, i: nat): (k: nat)
    requires i <= |s|
    ensures i <= k <= |s|
  {
    if i < |s| && s[i] == '.' && DigitsEnd(s, i + 1) > i + 1 then DigitsEnd(s, i + 1) else i
  }

  function ExponentEnd(s: string, i: nat): (k: nat)
    requires i <= |s|
    ensures i <= k <= |s|
  {
    if i < |s| && (s[i] == 'e' || s[i] == 'E') then
      var j := if i + 1 < |s| && (s[i + 1] == '+' || s[i + 1] == '-') then i + 2 else i + 1;
      if DigitsEnd(s, j) > j then DigitsEnd(s, j) else i
    else i
  }

  /** A number as section 6 of RFC 8259 writes it: a sign, a whole part, a fraction, an exponent. */
  predicate IsNumber(s: string) {
    var start := if s != [] && s[0] == '-' then 1 else 0;
    var whole := DigitsEnd(s, start);
    && start < whole && (s[start] == '0' ==> whole == start + 1)
    && ExponentEnd(s, FractionEnd(s, whole)) == |s|
  }

  /** Every number leaf is a JSON number, and objects and arrays nest no deeper than `room`. */
  predicate WellFormed(j: Json, room: nat)
    decreases room
  {
    match j
    case Number(literal) => IsNumber(literal)
    case Obj(fields) => room > 0 && forall k :: k in fields ==> WellFormed(fields[k], room - 1)
    case Arr(items) => room > 0 && forall i :: 0 <= i < |items| ==> WellFormed(items[i], room - 1)
    case _ => true
  }

  /** The nesting the decoder refuses to go beyond. */
  const MAX_DEPTH: nat := 10000

  /** encoding/json: a decoder that keeps number literals, and Marshal. */
  datatype Codec = Codec(decode: Bytes -> Option<Json>, encode: Json -> Bytes)
  {
    /** A tree of JSON numbers reads back unless it nests too deep. */
    predicate ReadsBack(j: Json, room: nat) {
      WellFormed(j, room) ==> decode(encode(j)) == if WellFormed(j, MAX_DEPTH) then Some(j) else None
    }

    ghost predicate Lawful() {
      && (forall b: Bytes :: decode(b).Some? ==> WellFormed(decode(b).value, MAX_DEPTH))
      && (forall j: Json, room: nat :: ReadsBack(j, room))
    }
  }

  /** One --set operation; `was` is the value it replaced, once applied. */
  datatype Edit = Edit(path: string, was: Bytes, value: Bytes)

  // ---------- places in a tree ----------

  datatype Slot = Key(name: string) | Index(at: nat)

  const MAX_INT64: int := 9223372036854775807

  predicate AllDigits(s: string) {
    forall i :: 0 <= i < |s| ==> IsDigit(s[i])
  }

  function Digits(s: string): nat
    requires AllDigits(s)
  {
    if s == [] then 0
    else
      assert IsDigit(s[|s| - 1]);
      10 * Digits(s[..|s| - 1]) + (s[|s| - 1] as int - '0' as int)
  }

  /** strconv.Atoi: an optional sign, then at least one digit, within 64 bits. */
  function Atoi(s: string): Option<int> {
    var signed := s != [] && (s[0] == '+' || s[0] == '-');
    var digits := if signed then s[1..] else s;
    if digits == [] || !AllDigits(digits) then None
    else
      var n: int := if signed && s[0] == '-' then 0 - Digits(digits) else Digits(digits);
      if -MAX_INT64 - 1 <= n <= MAX_INT64 then Some(n) else None
  }

  /** The decimal numeral of a number, without leading zeros. */
  function Numeral(n: nat): (s: string)
    ensures s != [] && AllDigits(s)
  {
    var last := ['0' + (n % 10) as char];
    if n < 10 then last else Numeral(n / 10) + last
  }

  lemma {:induction false} DigitsOfNumeral(n: nat)
    ensures Digits(Numeral(n)) == n
  {
    var last := ['0' + (n % 10) as char];
    if n < 10 {
      assert Numeral(n)[..0] == [];
    } else {
      DigitsOfNumeral(n / 10);
      assert Numeral(n)[..|Numeral(n)| - 1] == Numeral(n / 10);
    }
  }

  /** Only leading zeros tell apart two digit strings of one value. */
  lemma {:induction false} NumeralOfDigits(s: string) returns (zeros: nat)
    requires s != [] && AllDigits(s)
    ensures zeros < |s| && s[zeros..] == Numeral(Digits(s)) && forall i :: 0 <= i < zeros ==> s[i] == '0'
    decreases |s|
  {
    var init := s[..|s| - 1];
    NumeralSnoc(s);
    if init == [] {
      zeros := 0;
      assert s[0..] == s;
    } else {
      zeros := NumeralOfDigits(init);
      if Digits(init) == 0 {
        OnlyZero(init, zeros);
        zeros := |init|;
      } else {
        assert s[zeros..] == init[zeros..] + [s[|s| - 1]];
      }
    }
  }

  lemma OnlyZero(s: string, zeros: nat)
    requires zeros < |s| && s[zeros..] == Numeral(0)
    ensures zeros == |s| - 1 && s[zeros] == '0'
  {
    assert Numeral(0) == ['0'];
    assert |s[zeros..]| == 1 && s[zeros..][0] == s[zeros];
  }

  lemma {:induction false} NumeralSnoc(s: string)
    requires s != [] && AllDigits(s)
    ensures var init := s[..|s| - 1];
            AllDigits(init)
            && Numeral(Digits(s)) == (if Digits(init) == 0 then [] else Numeral(Digits(init))) + [s[|s| - 1]]
  {
    var init, last := s[..|s| - 1], s[|s| - 1];
    assert IsDigit(last);
    var d := last as int - '0' as int;
    assert AllDigits(init) && Digits(s) == 10 * Digits(init) + d;
    LastDigit(Digits(init), d, last);
  }

  lemma {:induction false} LastDigit(n: nat, d: nat, last: char)
    requires d < 10 && IsDigit(last) && last as int == '0' as int + d
    ensures Numeral(10 * n + d) == (if n == 0 then [] else Numeral(n)) + [last]
  {
    assert (10 * n + d) % 10 == d && (10 * n + d) / 10 == n;
    assert '0' + d as char == last;
  }

  /** What a path part may look like to mean the number n: its numeral after a sign, if any, and leading zeros, if any. */
  ghost predicate Spells(part: string, n: nat) {
    exists signed: nat, zeros: nat ::
      SpelledWith(part, n, signed, zeros)
  }

  predicate SpelledWith(part: string, n: nat, signed: nat, zeros: nat) {
    && signed <= zeros < |part| && part[zeros..] == Numeral(n)
    && (signed == 0 || (signed == 1 && (part[0] == '+' || (part[0] == '-' && n == 0))))
    && forall i :: signed <= i < zeros ==> part[i] == '0'
  }

  /** A part names item n of an array exactly when there is such an item and the part spells n. */
  lemma ItemNamedExactly(items: seq<Json>, part: string, n: nat)
    requires |items| <= MAX_INT64
    ensures SlotOf(Arr(items), part) == Some(Index(n)) <==> n < |items| && Spells(part, n)
  {
    if n < |items| && Spells(part, n) {
      var signed: nat, zeros: nat :| SpelledWith(part, n, signed, zeros);
      AtoiOfSpelled(part, n, signed, zeros);
    }
    if SlotOf(Arr(items), part) == Some(Index(n)) {
      SpelledByAtoi(part, n);
    }
  }

  /** A part names a key of an object exactly when it is that key and not empty; a scalar has nothing to name. */
  lemma KeyNamedExactly(j: Json, part: string, s: Slot)
    requires !j.Arr?
    ensures SlotOf(j, part) == Some(s) <==> j.Obj? && s == Key(part) && part in j.fields && part != ""
  {
  }

  lemma {:induction false} DigitsOfZeros(s: string, zeros: nat)
    requires zeros <= |s| && AllDigits(s) && forall i :: 0 <= i < zeros ==> s[i] == '0'
    ensures Digits(s) == Digits(s[zeros..])
    decreases |s|
  {
    if zeros < |s| {
      var init := s[..|s| - 1];
      DigitsOfZeros(init, zeros);
      assert s[zeros..][..|s| - zeros - 1] == init[zeros..];
    } else if zeros > 0 {
      DigitsOfZeros(s[..|s| - 1], zeros - 1);
    }
  }

  lemma AtoiOfSpelled(part: string, n: nat, signed: nat, zeros: nat)
    requires SpelledWith(part, n, signed, zeros) && n <= MAX_INT64
    ensures Atoi(part) == Some(n)
  {
    var digits := part[signed..];
    SpelledDigits(part, n, signed, zeros);
    assert IsDigit(digits[0]) && part[0..] == part;
  }

  lemma SpelledDigits(part: string, n: nat, signed: nat, zeros: nat)
    requires SpelledWith(part, n, signed, zeros)
    ensures AllDigits(part[signed..]) && Digits(part[signed..]) == n
  {
    var digits := part[signed..];
    forall i | 0 <= i < |digits|
      ensures IsDigit(digits[i])
    {
      if i >= zeros - signed {
        assert digits[i] == part[zeros..][i - (zeros - signed)];
      }
    }
    DigitsOfZeros(digits, zeros - signed);
    assert digits[zeros - signed..] == part[zeros..];
    DigitsOfNumeral(n);
  }

  lemma SpelledByAtoi(part: string, n: nat)
    requires Atoi(part) == Some(n)
    ensures Spells(part, n)
  {
    assert part[0..] == part;
    var signed: nat := if part != [] && (part[0] == '+' || part[0] == '-') then 1 else 0;
    var digits := part[signed..];
    var zeros := NumeralOfDigits(digits);
    assert part[signed + zeros..] == digits[zeros..];
    assert forall i :: signed <= i < signed + zeros ==> part[i] == digits[i - signed];
    assert SpelledWith(part, n, signed, signed + zeros);
  }

  /** The existing child a path part names; None where the walk fails. */
  function SlotOf(j: Json, part: string): (r: Option<Slot>)
    ensures r.Some? ==> HasSlot(j, r.value)
  {
    match j
    case Obj(fields) => if part == "" || part !in fields then None else Some(Key(part))
    case Arr(items) =>
      (match Atoi(part)
       case None => None
       case Some(n) => if n < 0 || n >= |items| then None else Some(Index(n)))
    case _ => None
  }

  predicate HasSlot(j: Json, s: Slot) {
    match s
    case Key(name) => j.Obj? && name in j.fields
    case Index(at) => j.Arr? && at < |j.items|
  }

  function Child(j: Json, s: Slot): Json
    requires HasSlot(j, s)
  {
    match s
    case Key(name) => j.fields[name]
    case Index(at) => j.items[at]
  }

  function WithChild(j: Json, s: Slot, v: Json): Json
    requires HasSlot(j, s)
  {
    match s
    case Key(name) => Obj(j.fields[name := v])
    case Index(at) => Arr(j.items[at := v])
  }

  function Get(j: Json, p: seq<Slot>): Option<Json> {
    if p == [] then Some(j)
    else if !HasSlot(j, p[0]) then None
    else Get(Child(j, p[0]), p[1..])
  }

  function Put(j: Json, p: seq<Slot>, v: Json): Json
    requires Get(j, p).Some?
    decreases |p|
  {
    if p == [] then v else WithChild(j, p[0], Put(Child(j, p[0]), p[1..], v))
  }

  /** The place a path of parts names in this tree. */
  function Locate(j: Json, parts: seq<string>): Option<seq<Slot>>
    decreases |parts|
  {
    if parts == [] then Some([])
    else match SlotOf(j, parts[0])
      case None => None
      case Some(s) =>
        match Locate(Child(j, s), parts[1..])
        case None => None
        case Some(rest) => Some([s] + rest)
  }

  lemma {:induction false} LocatedExists(j: Json, parts: seq<string>)
    requires Locate(j, parts).Some?
    ensures Get(j, Locate(j, parts).value).Some?
    decreases |parts|
  {
    if parts != [] {
      var s := SlotOf(j, parts[0]).value;
      LocatedExists(Child(j, s), parts[1..]);
      var p := Locate(j, parts).value;
      assert p[1..] == Locate(Child(j, s), parts[1..]).value;
    }
  }

  // ---------- the laws of Put ----------

  lemma {:induction false} GetPut(j: Json, p: seq<Slot>, v: Json)
    requires Get(j, p).Some?
    ensures Get(Put(j, p, v), p) == Some(v)
    decreases |p|
  {
    if p != [] {
      GetPut(Child(j, p[0]), p[1..], v);
      ChildOfWithChild(j, p[0], Put(Child(j, p[0]), p[1..], v), p[0]);
    }
  }

  lemma ChildOfWithChild(j: Json, s: Slot, v: Json, t: Slot)
    requires HasSlot(j, s)
    ensures HasSlot(WithChild(j, s, v), t) <==> HasSlot(j, t)
    ensures HasSlot(j, t) ==> Child(WithChild(j, s, v), t) == if t == s then v else Child(j, t)
  {
  }

  /** Putting back what was there undoes a put. */
  lemma {:induction false} PutBack(j: Json, p: seq<Slot>, v: Json)
    requires Get(j, p).Some?
    ensures Get(Put(j, p, v), p).Some?
    ensures Put(Put(j, p, v), p, Get(j, p).value) == j
    decreases |p|
  {
    GetPut(j, p, v);
    if p != [] {
      var child := Child(j, p[0]);
      var child' := Put(child, p[1..], v);
      PutBack(child, p[1..], v);
      ChildOfWithChild(j, p[0], child', p[0]);
      WithChildBack(j, p[0], child');
    }
  }

  lemma WithChildBack(j: Json, s: Slot, v: Json)
    requires HasSlot(j, s)
    ensures HasSlot(WithChild(j, s, v), s)
    ensures WithChild(WithChild(j, s, v), s, Child(j, s)) == j
  {
    match s
    case Key(name) => assert j.fields[name := v][name := j.fields[name]] == j.fields;
    case Index(at) => assert j.items[at := v][at := j.items[at]] == j.items;
  }

  /**
   Any place not at or below the edited one exists after the edit exactly if it did before; off the edited
   path its value is the same, and on the way to it an object keeps its keys and an array its length.
   */
  lemma {:induction false} PutElsewhere(j: Json, p: seq<Slot>, v: Json, q: seq<Slot>)
    requires Get(j, p).Some? && !(p <= q)
    ensures Get(Put(j, p, v), q).Some? <==> Get(j, q).Some?
    ensures !(q <= p) ==> Get(Put(j, p, v), q) == Get(j, q)
    ensures q <= p && Get(j, q).Some? ==> SameOutline(Get(j, q).value, Get(Put(j, p, v), q).value)
    decreases |p|
  {
    var s, child := p[0], Child(j, p[0]);
    var child' := Put(child, p[1..], v);
    if q != [] {
      ChildOfWithChild(j, s, child', q[0]);
      if q[0] == s {
        assert p == [s] + p[1..] && q == [s] + q[1..];
        assert !(p[1..] <= q[1..]);
        PutElsewhere(child, p[1..], v, q[1..]);
      }
    }
  }

  predicate SameOutline(a: Json, b: Json) {
    if a.Obj? then b.Obj? && a.fields.Keys == b.fields.Keys
    else if a.Arr? then b.Arr? && |a.items| == |b.items|
    else a == b
  }

  /** The same path names the same place after an edit there. */
  lemma {:induction false} LocateAfterPut(j: Json, parts: seq<string>, v: Json)
    requires Locate(j, parts).Some? && Get(j, Locate(j, parts).value).Some?
    ensures Locate(Put(j, Locate(j, parts).value, v), parts) == Locate(j, parts)
    decreases |parts|
  {
    if parts != [] {
      var s := SlotOf(j, parts[0]).value;
      var child, p := Child(j, s), Locate(j, parts).value;
      var rest := Locate(child, parts[1..]).value;
      assert p[0] == s && p[1..] == rest;
      LocateAfterPut(child, parts[1..], v);
      ChildOfWithChild(j, s, Put(child, rest, v), s);
      SlotAfter(j, s, Put(child, rest, v), parts[0]);
    }
  }

  lemma SlotAfter(j: Json, s: Slot, v: Json, part: string)
    requires HasSlot(j, s)
    ensures SlotOf(WithChild(j, s, v), part) == SlotOf(j, part)
  {
  }

  lemma {:induction false} LocatedLength(j: Json, parts: seq<string>)
    requires Locate(j, parts).Some?
    ensures |Locate(j, parts).value| == |parts|
    decreases |parts|
  {
    if parts != [] {
      LocatedLength(Child(j, SlotOf(j, parts[0]).value), parts[1..]);
    }
  }

  // ---------- well-formedness ----------

  lemma {:induction false} Roomier(j: Json, m: nat, n: nat)
    requires WellFormed(j, m) && m <= n
    ensures WellFormed(j, n)
    decreases m
  {
    match j
    case Obj(fields) =>
      forall k | k in fields
        ensures WellFormed(fields[k], n - 1)
      {
        Roomier(fields[k], m - 1, n - 1);
      }
    case Arr(items) =>
      forall i | 0 <= i < |items|
        ensures WellFormed(items[i], n - 1)
      {
        Roomier(items[i], m - 1, n - 1);
      }
    case _ =>
  }

  /** What a well-formed tree holds is well-formed, in the room its place leaves. */
  lemma {:induction false} GetWellFormed(j: Json, p: seq<Slot>, room: nat)
    requires WellFormed(j, room) && Get(j, p).Some?
    ensures |p| <= room && WellFormed(Get(j, p).value, room - |p|)
    decreases |p|
  {
    if p != [] {
      GetWellFormed(Child(j, p[0]), p[1..], room - 1);
    }
  }

  /** A replacement that fits the room of its place keeps the tree well-formed. */
  lemma {:induction false} PutWellFormed(j: Json, p: seq<Slot>, v: Json, room: nat)
    requires WellFormed(j, room) && Get(j, p).Some? && |p| <= room && WellFormed(v, room - |p|)
    ensures WellFormed(Put(j, p, v), room)
    decreases |p|
  {
    if p != [] {
      PutWellFormed(Child(j, p[0]), p[1..], v, room - 1);
    }
  }

  lemma PutWellFormedExactly(j: Json, p: seq<Slot>, v: Json, room: nat)
    requires WellFormed(j, room) && Get(j, p).Some?
    ensures |p| <= room && (WellFormed(Put(j, p, v), room) <==> WellFormed(v, room - |p|))
  {
    GetWellFormed(j, p, room);
    GetPut(j, p, v);
    if WellFormed(v, room - |p|) {
      PutWellFormed(j, p, v, room);
    }
    if WellFormed(Put(j, p, v), room) {
      GetWellFormed(Put(j, p, v), p, room);
    }
  }

  // ---------- edits ----------

  /** strings.Split(path, "."): never empty. */
  function Parts(path: string): (r: seq<string>)
    ensures r != []
    decreases |path|
  {
    var k := DotFrom(path, 0);
    if k == |path| then [path] else [path[..k]] + Parts(path[k + 1..])
  }

  function DotFrom(s: string, i: nat): (k: nat)
    requires i <= |s|
    ensures i <= k <= |s|
    decreases |s| - i
  {
    if i == |s| || s[i] == '.' then i else DotFrom(s, i + 1)
  }

  function Dotted(parts: seq<string>): string {
    if parts == [] then []
    else if |parts| == 1 then parts[0] else parts[0] + ['.'] + Dotted(parts[1..])
  }

  /** A path's parts have no dot in them and make up the path again with one between each two. */
  lemma {:induction false} PartsExactly(path: string)
    ensures Dotted(Parts(path)) == path
    ensures forall p :: p in Parts(path) ==> '.' !in p
    decreases |path|
  {
    var k := DotFrom(path, 0);
    FirstDot(path, 0);
    if k < |path| {
      PartsExactly(path[k + 1..]);
      assert path == path[..k] + ['.'] + path[k + 1..];
      assert Parts(path)[1..] == Parts(path[k + 1..]);
    } else {
      assert path[..k] == path;
    }
  }

  lemma {:induction false} FirstDot(s: string, i: nat)
    requires i <= |s|
    ensures var k := DotFrom(s, i);
            (k < |s| ==> s[k] == '.') && forall j :: i <= j < k ==> s[j] != '.'
    decreases |s| - i
  {
    if i < |s| && s[i] != '.' {
      FirstDot(s, i + 1);
    }
  }

  datatype Applied = Applied(tree: Json, edit: Edit)

  /** One edit on a tree: the tree after it, and the edit with the replaced value recorded. */
  function EditedOnce(c: Codec, root: Json, e: Edit): Option<Applied> {
    var place := Locate(root, Parts(e.path));
    if place.None? || c.decode(e.value).None? then None
    else
      LocatedExists(root, Parts(e.path));
      Some(Applied(Put(root, place.value, c.decode(e.value).value),
                   e.(was := c.encode(Get(root, place.value).value))))
  }

  datatype Edited = Edited(tree: Json, edits: seq<Edit>)

  function EditedAll(c: Codec, root: Json, edits: seq<Edit>): Option<Edited> {
    if edits == [] then Some(Edited(root, []))
    else match EditedAll(c, root, edits[..|edits| - 1])
      case None => None
      case Some(before) =>
        match EditedOnce(c, before.tree, edits[|edits| - 1])
        case None => None
        case Some(a) => Some(Edited(a.tree, before.edits + [a.edit]))
  }

  /** The walk: down through existing children only, and the replacement at the last part. */
  method ApplyOne(c: Codec, root: Json, e: Edit) returns (r: Option<Applied>)
    ensures r == EditedOnce(c, root, e)
  {
    var parts := Parts(e.path);
    var cur := root;
    var place: seq<Slot> := [];
    assert parts[0..] == parts;
    ghost var whole := Locate(root, parts);
    assert whole.Some? ==> [] + whole.value == whole.value;
    for i := 0 to |parts|
      invariant i < |parts|
      invariant Get(root, place) == Some(cur)
      invariant Locate(root, parts) ==
        match Locate(cur, parts[i..]) case None => None case Some(rest) => Some(place + rest)
    {
      var slot := SlotOf(cur, parts[i]);
      if slot.None? {
        return None;
      }
      ghost var rest := Locate(Child(cur, slot.value), parts[i + 1..]);
      assert parts[i..][1..] == parts[i + 1..];
      GetSnoc(root, place, slot.value);
      if rest.Some? {
        GlueSlot(place, slot.value, rest.value);
      }
      place := place + [slot.value];
      if i == |parts| - 1 {
        assert rest == Some([]) && place + [] == place;
        assert whole == Some(place);
        var replacement := c.decode(e.value);
        if replacement.None? {
          return None;
        }
        return Some(Applied(Put(root, place, replacement.value), e.(was := c.encode(Child(cur, slot.value)))));
      }
      cur := Child(cur, slot.value);
    }
    assert false;
  }

  lemma GlueSlot(a: seq<Slot>, b: Slot, c: seq<Slot>)
    ensures a + ([b] + c) == (a + [b]) + c
  {
  }

  lemma {:induction false} GetSnoc(j: Json, p: seq<Slot>, s: Slot)
    requires Get(j, p).Some? && HasSlot(Get(j, p).value, s)
    ensures Get(j, p + [s]) == Some(Child(Get(j, p).value, s))
    decreases |p|
  {
    if p == [] {
      assert ([] + [s])[1..] == [];
    } else {
      GetSnoc(Child(j, p[0]), p[1..], s);
      assert (p + [s])[1..] == p[1..] + [s];
    }
  }

  datatype Outcome = Refused | Body(bytes: Bytes, edits: seq<Edit>)

  /** ApplyEdits: all or nothing; no edits at all returns the very bytes it was given. */
  method ApplyEdits(c: Codec, body: Bytes, edits: seq<Edit>) returns (r: Outcome)
    ensures r == AppliedTo(c, body, edits)
  {
    if |edits| == 0 {
      return Body(body, edits);
    }
    var decoded := c.decode(body);
    if decoded.None? {
      return Refused;
    }
    var root := decoded.value;
    var done: seq<Edit> := [];
    for i := 0 to |edits|
      invariant EditedAll(c, decoded.value, edits[..i]) == Some(Edited(root, done))
    {
      assert edits[..i + 1][..i] == edits[..i];
      var applied := ApplyOne(c, root, edits[i]);
      if applied.None? {
        FailureSticks(c, decoded.value, edits, i + 1);
        return Refused;
      }
      root, done := applied.value.tree, done + [applied.value.edit];
    }
    assert edits[..|edits|] == edits;
    r := Body(c.encode(root), done);
  }

  function AppliedTo(c: Codec, body: Bytes, edits: seq<Edit>): Outcome {
    if edits == [] then Body(body, [])
    else if c.decode(body).None? then Refused
    else match EditedAll(c, c.decode(body).value, edits)
      case None => Refused
      case Some(done) => Body(c.encode(done.tree), done.edits)
  }

  lemma {:induction false} FailureSticks(c: Codec, root: Json, edits: seq<Edit>, i: nat)
    requires i <= |edits| && EditedAll(c, root, edits[..i]) == None
    ensures EditedAll(c, root, edits) == None
    decreases |edits|
  {
    if i < |edits| {
      assert edits[..|edits| - 1][..i] == edits[..i];
      FailureSticks(c, root, edits[..|edits| - 1], i);
    } else {
      assert edits[..i] == edits;
    }
  }

  // ---------- undo ----------

  /** The edits that take applied ones back: last first, each setting what it had replaced. */
  function Undo(edits: seq<Edit>): seq<Edit> {
    if edits == [] then []
    else
      var last := edits[|edits| - 1];
      [last.(value := last.was)] + Undo(edits[..|edits| - 1])
  }

  /** One edit undone, if the value it replaced can be read back. */
  lemma UndoOnce(c: Codec, root: Json, e: Edit, room: nat)
    requires c.Lawful() && WellFormed(root, room) && EditedOnce(c, root, e).Some?
    ensures var a := EditedOnce(c, root, e).value;
            var back := EditedOnce(c, a.tree, a.edit.(value := a.edit.was));
            && (back.Some? <==> c.decode(a.edit.was).Some?)
            && (back.Some? ==> back.value.tree == root)
  {
    var parts := Parts(e.path);
    var p := Locate(root, parts).value;
    LocatedExists(root, parts);
    LocateAfterPut(root, parts, c.decode(e.value).value);
    PutBack(root, p, c.decode(e.value).value);
    GetWellFormed(root, p, room);
    assert c.ReadsBack(Get(root, p).value, room - |p|);
  }

  lemma {:induction false} EditsSnoc(c: Codec, root: Json, edits: seq<Edit>, init: seq<Edit>, last: Edit)
    requires edits == init + [last]
    ensures EditedAll(c, root, edits) == Then(c, EditedAll(c, root, init), last)
  {
    assert edits[..|edits| - 1] == init;
  }

  function Then(c: Codec, before: Option<Edited>, e: Edit): Option<Edited> {
    if before.None? then None
    else
      match EditedOnce(c, before.value.tree, e)
      case None => None
      case Some(a) => Some(Edited(a.tree, before.value.edits + [a.edit]))
  }

  function After(first: Edit, d: Option<Edited>): Option<Edited> {
    if d.None? then None else Some(Edited(d.value.tree, [first] + d.value.edits))
  }

  lemma ThenAfter(c: Codec, first: Edit, d: Option<Edited>, e: Edit)
    ensures Then(c, After(first, d), e) == After(first, Then(c, d, e))
  {
    if d.Some? && EditedOnce(c, d.value.tree, e).Some? {
      ConsSnoc(first, d.value.edits, EditedOnce(c, d.value.tree, e).value.edit);
    }
  }

  lemma {:induction false} EditsCons(c: Codec, root: Json, e: Edit, rest: seq<Edit>)
    requires EditedOnce(c, root, e).Some?
    ensures var a := EditedOnce(c, root, e).value;
            EditedAll(c, root, [e] + rest) == After(a.edit, EditedAll(c, a.tree, rest))
    decreases |rest|
  {
    var a := EditedOnce(c, root, e).value;
    if rest == [] {
      EditsOne(c, root, e);
      assert [e] + rest == [e];
    } else {
      var init, last := rest[..|rest| - 1], rest[|rest| - 1];
      EditsCons(c, root, e, init);
      EditsConsStep(c, root, e, a, rest, init, last);
    }
  }

  lemma {:induction false} EditsOne(c: Codec, root: Json, e: Edit)
    requires EditedOnce(c, root, e).Some?
    ensures var a := EditedOnce(c, root, e).value;
            EditedAll(c, root, [e]) == After(a.edit, EditedAll(c, a.tree, []))
  {
    var a := EditedOnce(c, root, e).value;
    EditsSnoc(c, root, [e], [], e);
    assert [a.edit] + [] == [a.edit] == [] + [a.edit];
  }

  lemma {:induction false} EditsConsStep(c: Codec, root: Json, e: Edit, a: Applied, rest: seq<Edit>, init: seq<Edit>, last: Edit)
    requires rest == init + [last]
    requires EditedAll(c, root, [e] + init) == After(a.edit, EditedAll(c, a.tree, init))
    ensures EditedAll(c, root, [e] + rest) == After(a.edit, EditedAll(c, a.tree, rest))
  {
    ConsSnoc(e, init, last);
    EditsSnoc(c, root, [e] + rest, [e] + init, last);
    EditsSnoc(c, a.tree, rest, init, last);
    ThenAfter(c, a.edit, EditedAll(c, a.tree, init), last);
  }

  lemma ConsSnoc(e: Edit, init: seq<Edit>, last: Edit)
    ensures [e] + (init + [last]) == ([e] + init) + [last]
  {
  }

  /** Every value the edits replaced can be read back. */
  predicate Recorded(c: Codec, edits: seq<Edit>) {
    forall i :: 0 <= i < |edits| ==> c.decode(edits[i].was).Some?
  }

  lemma RecordedSnoc(c: Codec, edits: seq<Edit>, e: Edit)
    ensures Recorded(c, edits + [e]) <==> Recorded(c, edits) && c.decode(e.was).Some?
  {
    assert forall i :: 0 <= i < |edits| ==> (edits + [e])[i] == edits[i];
    assert (edits + [e])[|edits|] == e;
  }

  /** Every tree the edits go through has JSON numbers alone. */
  lemma {:induction false} EditedWellFormed(c: Codec, root: Json, edits: seq<Edit>) returns (room: nat)
    requires c.Lawful() && WellFormed(root, MAX_DEPTH) && EditedAll(c, root, edits).Some?
    ensures WellFormed(EditedAll(c, root, edits).value.tree, room)
    decreases |edits|
  {
    room := MAX_DEPTH;
    if edits != [] {
      var init, last := edits[..|edits| - 1], edits[|edits| - 1];
      var r := EditedWellFormed(c, root, init);
      var tree := EditedAll(c, root, init).value.tree;
      var p, v := Locate(tree, Parts(last.path)).value, c.decode(last.value).value;
      LocatedExists(tree, Parts(last.path));
      room := r + MAX_DEPTH;
      GetWellFormed(tree, p, r);
      Roomier(tree, r, room);
      Roomier(v, MAX_DEPTH, room - |p|);
      PutWellFormed(tree, p, v, room);
    }
  }

  lemma {:induction false} UndoTree(c: Codec, root: Json, edits: seq<Edit>)
    requires c.Lawful() && WellFormed(root, MAX_DEPTH) && EditedAll(c, root, edits).Some?
    ensures var d := EditedAll(c, root, edits).value;
            var back := EditedAll(c, d.tree, Undo(d.edits));
            && (back.Some? <==> Recorded(c, d.edits))
            && (back.Some? ==> back.value.tree == root)
    decreases |edits|
  {
    if edits != [] {
      var init, last := edits[..|edits| - 1], edits[|edits| - 1];
      UndoTree(c, root, init);
      var before := EditedAll(c, root, init).value;
      var a := EditedOnce(c, before.tree, last).value;
      var room := EditedWellFormed(c, root, init);
      UndoOnce(c, before.tree, last, room);
      RecordedSnoc(c, before.edits, a.edit);
      UndoSnoc(before.edits, a.edit);
      UndoFirst(c, a.tree, a.edit.(value := a.edit.was), Undo(before.edits));
    }
  }

  lemma UndoSnoc(edits: seq<Edit>, e: Edit)
    ensures Undo(edits + [e]) == [e.(value := e.was)] + Undo(edits)
  {
    assert (edits + [e])[..|edits|] == edits;
  }

  /** A list of edits does what its first does, then the rest. */
  lemma UndoFirst(c: Codec, root: Json, e: Edit, rest: seq<Edit>)
    ensures var first, all := EditedOnce(c, root, e), EditedAll(c, root, [e] + rest);
            && (first.None? ==> all.None?)
            && (first.Some? ==> all == After(first.value.edit, EditedAll(c, first.value.tree, rest)))
  {
    if EditedOnce(c, root, e).Some? {
      EditsCons(c, root, e, rest);
    } else {
      EditsSnoc(c, root, [e], [], e);
      assert ([e] + rest)[..1] == [e];
      FailureSticks(c, root, [e] + rest, 1);
    }
  }

  /**
   Applying the recorded old values, last edit first, to an edited body succeeds exactly when that body and all
   the recorded values can be read back, and whenever it succeeds it restores the body's tree.
   */
  lemma UndoRestoresExactly(c: Codec, body: Bytes, edits: seq<Edit>)
    requires c.Lawful() && edits != [] && AppliedTo(c, body, edits).Body?
    ensures var done := AppliedTo(c, body, edits);
            var back := AppliedTo(c, done.bytes, Undo(done.edits));
            && (back.Body? <==> c.decode(done.bytes).Some? && Recorded(c, done.edits))
            && (back.Body? ==> c.decode(back.bytes) == c.decode(body))
  {
    var root := c.decode(body).value;
    var d := EditedAll(c, root, edits).value;
    UndoTree(c, root, edits);
    var room := EditedWellFormed(c, root, edits);
    UndoNonEmpty(c, root, edits);
    assert c.ReadsBack(d.tree, room) && c.ReadsBack(root, MAX_DEPTH);
  }

  /** The edit's value, put at the end of its path, stays within the decoder's nesting. */
  predicate Shallow(c: Codec, e: Edit) {
    && |Parts(e.path)| <= MAX_DEPTH
    && (c.decode(e.value).Some? ==> WellFormed(c.decode(e.value).value, MAX_DEPTH - |Parts(e.path)|))
  }

  lemma EditedOnceShallow(c: Codec, root: Json, e: Edit)
    requires c.Lawful() && WellFormed(root, MAX_DEPTH) && EditedOnce(c, root, e).Some?
    ensures WellFormed(EditedOnce(c, root, e).value.tree, MAX_DEPTH) <==> Shallow(c, e)
    ensures c.decode(EditedOnce(c, root, e).value.edit.was).Some?
  {
    var p, v := EditedPlace(c, root, e);
    PutWellFormedExactly(root, p, v, MAX_DEPTH);
    ShallowPlace(c, e, p, v, Put(root, p, v));
    OldReadsBack(c, root, p);
  }

  lemma ShallowPlace(c: Codec, e: Edit, p: seq<Slot>, v: Json, after: Json)
    requires |p| == |Parts(e.path)| && c.decode(e.value) == Some(v) && |p| <= MAX_DEPTH
    requires WellFormed(after, MAX_DEPTH) <==> WellFormed(v, MAX_DEPTH - |p|)
    ensures WellFormed(after, MAX_DEPTH) <==> Shallow(c, e)
  {
  }

  lemma EditedPlace(c: Codec, root: Json, e: Edit) returns (p: seq<Slot>, v: Json)
    requires EditedOnce(c, root, e).Some?
    ensures |p| == |Parts(e.path)| && Get(root, p).Some? && c.decode(e.value) == Some(v)
    ensures EditedOnce(c, root, e) == Some(Applied(Put(root, p, v), e.(was := c.encode(Get(root, p).value))))
  {
    p, v := Locate(root, Parts(e.path)).value, c.decode(e.value).value;
    LocatedExists(root, Parts(e.path));
    LocatedLength(root, Parts(e.path));
  }

  lemma OldReadsBack(c: Codec, root: Json, p: seq<Slot>)
    requires c.Lawful() && WellFormed(root, MAX_DEPTH) && Get(root, p).Some?
    ensures c.decode(c.encode(Get(root, p).value)).Some?
  {
    GetWellFormed(root, p, MAX_DEPTH);
    Roomier(Get(root, p).value, MAX_DEPTH - |p|, MAX_DEPTH);
    assert c.ReadsBack(Get(root, p).value, MAX_DEPTH);
  }

  lemma {:induction false} ShallowKept(c: Codec, root: Json, edits: seq<Edit>)
    requires c.Lawful() && WellFormed(root, MAX_DEPTH) && EditedAll(c, root, edits).Some?
    requires forall i :: 0 <= i < |edits| ==> Shallow(c, edits[i])
    ensures WellFormed(EditedAll(c, root, edits).value.tree, MAX_DEPTH)
    ensures Recorded(c, EditedAll(c, root, edits).value.edits)
    decreases |edits|
  {
    if edits != [] {
      var init, last := edits[..|edits| - 1], edits[|edits| - 1];
      assert forall i :: 0 <= i < |init| ==> init[i] == edits[i];
      ShallowKept(c, root, init);
      var before := EditedAll(c, root, init).value;
      EditedOnceShallow(c, before.tree, last);
      RecordedSnoc(c, before.edits, EditedOnce(c, before.tree, last).value.edit);
    }
  }

  /** Edits that keep within the decoder's nesting are always undone. */
  lemma UndoRestores(c: Codec, body: Bytes, edits: seq<Edit>)
    requires c.Lawful() && AppliedTo(c, body, edits).Body?
    requires forall i :: 0 <= i < |edits| ==> Shallow(c, edits[i])
    ensures var done := AppliedTo(c, body, edits);
            var back := AppliedTo(c, done.bytes, Undo(done.edits));
            back.Body? && c.decode(back.bytes) == c.decode(body)
  {
    if edits != [] {
      UndoRestoresExactly(c, body, edits);
      ShallowKept(c, c.decode(body).value, edits);
      assert c.ReadsBack(EditedAll(c, c.decode(body).value, edits).value.tree, MAX_DEPTH);
    }
  }

  /** A single edit is undone exactly when it keeps within the nesting. */
  lemma OneEditUndoneExactly(c: Codec, body: Bytes, e: Edit)
    requires c.Lawful() && AppliedTo(c, body, [e]).Body?
    ensures var done := AppliedTo(c, body, [e]);
            AppliedTo(c, done.bytes, Undo(done.edits)).Body? <==> Shallow(c, e)
  {
    var root := c.decode(body).value;
    UndoRestoresExactly(c, body, [e]);
    EditsSnoc(c, root, [e], [], e);
    EditedOnceShallow(c, root, e);
    RecordedSnoc(c, [], EditedOnce(c, root, e).value.edit);
    assert [] + [EditedOnce(c, root, e).value.edit] == [EditedOnce(c, root, e).value.edit];
    var room := EditedWellFormed(c, root, [e]);
    assert c.ReadsBack(EditedAll(c, root, [e]).value.tree, room);
  }

  lemma UndoNonEmpty(c: Codec, root: Json, edits: seq<Edit>)
    requires edits != [] && EditedAll(c, root, edits).Some?
    ensures Undo(EditedAll(c, root, edits).value.edits) != []
  {
  }

  // ---------- what an edit cannot do ----------

  /** What one successful edit does to every place of the tree. */
  lemma EditTouchesOnePlace(c: Codec, root: Json, e: Edit, q: seq<Slot>)
    requires EditedOnce(c, root, e).Some?
    ensures var a := EditedOnce(c, root, e).value;
            var p := Locate(root, Parts(e.path)).value;
            && Get(a.tree, p) == c.decode(e.value)
            && (!(p <= q) ==> (Get(a.tree, q).Some? <==> Get(root, q).Some?))
            && (!(p <= q) && !(q <= p) ==> Get(a.tree, q) == Get(root, q))
            && (q <= p && q != p && Get(root, q).Some? ==> SameOutline(Get(root, q).value, Get(a.tree, q).value))
  {
    var p := Locate(root, Parts(e.path)).value;
    var v := c.decode(e.value).value;
    LocatedExists(root, Parts(e.path));
    GetPut(root, p, v);
    if !(p <= q) {
      PutElsewhere(root, p, v, q);
    }
  }

  /** The edits before `i` apply, and the i-th does not. */
  predicate FailsAt(c: Codec, root: Json, edits: seq<Edit>, i: nat) {
    i < |edits| &&
    match EditedAll(c, root, edits[..i])
    case None => false
    case Some(before) => EditedOnce(c, before.tree, edits[i]).None?
  }

  /** No body comes out exactly when the body is not JSON or some edit, on the tree left by those before it, fails. */
  lemma {:induction false} AllOrNothing(c: Codec, body: Bytes, edits: seq<Edit>)
    ensures AppliedTo(c, body, edits).Refused? <==>
              edits != [] && (c.decode(body).None? || exists i: nat :: FailsAt(c, c.decode(body).value, edits, i))
  {
    if edits != [] && c.decode(body).Some? {
      FirstFailure(c, c.decode(body).value, edits);
    }
  }

  lemma FailsInPrefix(c: Codec, root: Json, edits: seq<Edit>, n: nat, i: nat)
    requires n <= |edits| && i < n
    ensures FailsAt(c, root, edits[..n], i) <==> FailsAt(c, root, edits, i)
  {
    assert edits[..n][..i] == edits[..i];
  }

  predicate FailsBefore(c: Codec, root: Json, edits: seq<Edit>, n: nat) {
    exists i: nat :: i < n && FailsAt(c, root, edits, i)
  }

  lemma {:induction false} FailsUpTo(c: Codec, root: Json, edits: seq<Edit>, n: nat)
    requires n <= |edits|
    ensures EditedAll(c, root, edits[..n]).None? <==> FailsBefore(c, root, edits, n)
  {
    if n > 0 {
      FailsUpTo(c, root, edits, n - 1);
      LastFails(c, root, edits[..n]);
      assert edits[..n][..n - 1] == edits[..n - 1];
      FailsInPrefix(c, root, edits, n, n - 1);
      FailsBeforeSnoc(c, root, edits, n);
    }
  }

  lemma FailsBeforeSnoc(c: Codec, root: Json, edits: seq<Edit>, n: nat)
    requires n > 0
    ensures FailsBefore(c, root, edits, n) <==> FailsBefore(c, root, edits, n - 1) || FailsAt(c, root, edits, n - 1)
  {
  }

  lemma {:induction false} FirstFailure(c: Codec, root: Json, edits: seq<Edit>)
    ensures EditedAll(c, root, edits).None? <==> exists i: nat :: FailsAt(c, root, edits, i)
  {
    FailsUpTo(c, root, edits, |edits|);
    assert edits[..|edits|] == edits;
  }

  lemma LastFails(c: Codec, root: Json, edits: seq<Edit>)
    requires edits != []
    ensures var n := |edits| - 1;
            EditedAll(c, root, edits).None? <==> EditedAll(c, root, edits[..n]).None? || FailsAt(c, root, edits, n)
  {
  }
}
