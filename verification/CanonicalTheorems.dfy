/** Canonical text determines the value: a reader for it and its round trip, and the theorem behind every digest. */
module CanonicalTheorems {
  import opened Collections
  import opened CanonicalJson

  // ---------- the reader: sections 2 to 7 of RFC 8259, numbers integral ----------

  type Read<T> = Option<(T, Units)>

  predicate StartsWith(x: Units, word: Units) {
    |word| <= |x| && forall i | 0 <= i < |word| :: x[i] == word[i]
  }

  /** Insignificant white space. */
  predicate Space(u: Unit) { u == 0x20 || u == 0x09 || u == 0x0a || u == 0x0d }

  function Skip(x: Units): (r: Units)
    ensures |r| <= |x| && (r == [] || !Space(r[0]))
    ensures x == [] || !Space(x[0]) ==> r == x
  {
    if x != [] && Space(x[0]) then Skip(x[1..]) else x
  }

  function ParseValue(x: Units): (r: Read<Json>)
    ensures r.Some? ==> |r.value.1| < |x|
    decreases |x|, 0
  {
    if x == [] then None
    else if StartsWith(x, NULL_WORD) then Some((Null, x[4..]))
    else if StartsWith(x, TRUE_WORD) then Some((Bool(true), x[4..]))
    else if StartsWith(x, FALSE_WORD) then Some((Bool(false), x[5..]))
    else if x[0] == QUOTE then
      match ParseString(x[1..])
      case None => None
      case Some((s, rest)) => Some((Str(s), rest))
    else if x[0] == LEFT_BRACKET then
      var y := Skip(x[1..]);
      if y != [] && y[0] == RIGHT_BRACKET then Some((Arr(NoItems), y[1..])) else
      match ParseItems(y)
      case None => None
      case Some((items, rest)) => Some((Arr(items), rest))
    else if x[0] == LEFT_BRACE then
      var y := Skip(x[1..]);
      if y != [] && y[0] == RIGHT_BRACE then Some((Obj(NoMembers), y[1..])) else
      match ParseMembers(y)
      case None => None
      case Some((members, rest)) => Some((Obj(members), rest))
    else ParseNumber(x)
  }

  function ParseItems(x: Units): (r: Read<Items>)
    ensures r.Some? ==> |r.value.1| < |x|
    decreases |x|, 1
  {
    match ParseValue(x)
    case None => None
    case Some((head, afterHead)) =>
      var rest := Skip(afterHead);
      if rest == [] then None
      else if rest[0] == RIGHT_BRACKET then Some((Item(head, NoItems), rest[1..]))
      else if rest[0] != COMMA then None
      else match ParseItems(Skip(rest[1..]))
        case None => None
        case Some((tail, after)) => Some((Item(head, tail), after))
  }

  function ParseMembers(x: Units): (r: Read<Members>)
    ensures r.Some? ==> |r.value.1| < |x|
    decreases |x|, 1
  {
    if x == [] || x[0] != QUOTE then None else
    match ParseString(x[1..])
    case None => None
    case Some((key, end)) =>
      var afterKey := Skip(end);
      if afterKey == [] || afterKey[0] != COLON then None else
      match ParseValue(Skip(afterKey[1..]))
      case None => None
      case Some((value, afterValue)) =>
        var rest := Skip(afterValue);
        if rest == [] then None
        else if rest[0] == RIGHT_BRACE then Some((Member(key, value, NoMembers), rest[1..]))
        else if rest[0] != COMMA then None
        else match ParseMembers(Skip(rest[1..]))
          case None => None
          case Some((more, after)) => Some((Member(key, value, more), after))
  }

  /** The text after an opening quotation mark. */
  function ParseString(x: Units): (r: Read<Units>)
    ensures r.Some? ==> |r.value.1| < |x|
  {
    if x == [] || x[0] < 32 then None
    else if x[0] == QUOTE then Some(([], x[1..]))
    else
      match (if x[0] == BACKSLASH then ParseEscape(x[1..]) else Some((x[0], x[1..])))
      case None => None
      case Some((u, rest)) =>
        match ParseString(rest)
        case None => None
        case Some((s, after)) => Some(([u] + s, after))
  }

  function ParseEscape(x: Units): (r: Read<Unit>)
    ensures r.Some? ==> |r.value.1| < |x|
  {
    if x == [] then None
    else if x[0] == QUOTE || x[0] == BACKSLASH || x[0] == 0x2f then Some((x[0], x[1..]))
    else if x[0] == 0x62 then Some((8, x[1..]))
    else if x[0] == 0x74 then Some((9, x[1..]))
    else if x[0] == 0x6e then Some((10, x[1..]))
    else if x[0] == 0x66 then Some((12, x[1..]))
    else if x[0] == 0x72 then Some((13, x[1..]))
    else if x[0] != LETTER_U || |x| < 5 then None
    else
      var a, b, c, d := HexValue(x[1]), HexValue(x[2]), HexValue(x[3]), HexValue(x[4]);
      if a.None? || b.None? || c.None? || d.None? then None
      else Some((((a.value * 16 + b.value) * 16 + c.value) * 16 + d.value, x[5..]))
  }

  function HexValue(u: Unit): (r: Option<int>)
    ensures r.Some? ==> 0 <= r.value < 16
  {
    if IsDigit(u) then Some(u - ZERO)
    else if 0x61 <= u <= 0x66 then Some(u - 0x57)
    else if 0x41 <= u <= 0x46 then Some(u - 0x37)
    else None
  }

  function DigitRun(x: Units): (n: nat)
    ensures n <= |x| && (forall i | 0 <= i < n :: IsDigit(x[i])) && (n < |x| ==> !IsDigit(x[n]))
  {
    if x == [] || !IsDigit(x[0]) then 0 else 1 + DigitRun(x[1..])
  }

  function NumberOf(digits: Units): int {
    if digits == [] then 0 else 10 * NumberOf(digits[..|digits| - 1]) + (digits[|digits| - 1] - ZERO)
  }

  /** An integer: no leading zero, an optional minus sign. */
  function ParseNumber(x: Units): (r: Read<Json>)
    ensures r.Some? ==> |r.value.1| < |x|
  {
    var negative := x != [] && x[0] == MINUS;
    var y := if negative then x[1..] else x;
    var n := DigitRun(y);
    if n == 0 || (y[0] == ZERO && n > 1) then None
    else Some((Num(if negative then -NumberOf(y[..n]) else NumberOf(y[..n])), y[n..]))
  }

  // ---------- round trip ----------

  lemma HexRoundTrip(u: Unit, rest: Units)
    ensures ParseEscape([LETTER_U] + Hex4(u) + rest) == Some((u, rest))
  {
    var x := [LETTER_U] + Hex4(u) + rest;
    assert x[1..5] == Hex4(u) && x[5..] == rest;
    assert x[1] == Hex4(u)[0] && x[2] == Hex4(u)[1] && x[3] == Hex4(u)[2] && x[4] == Hex4(u)[3];
    HexDigits(u);
  }

  lemma HexDigits(u: Unit)
    ensures HexValue(HexDigit(u / 4096)) == Some(u / 4096) && HexValue(HexDigit(u / 256 % 16)) == Some(u / 256 % 16)
    ensures HexValue(HexDigit(u / 16 % 16)) == Some(u / 16 % 16) && HexValue(HexDigit(u % 16)) == Some(u % 16)
    ensures ((u / 4096 * 16 + u / 256 % 16) * 16 + u / 16 % 16) * 16 + u % 16 == u
  {
    HexPlaces(u);
    HexDigitValue(u / 4096);
    HexDigitValue(u / 256 % 16);
    HexDigitValue(u / 16 % 16);
    HexDigitValue(u % 16);
  }

  lemma HexPlaces(u: Unit)
    ensures ((u / 4096 * 16 + u / 256 % 16) * 16 + u / 16 % 16) * 16 + u % 16 == u
  {
    assert u / 16 / 16 == u / 256 && u / 256 / 16 == u / 4096;
    assert u / 256 == u / 4096 * 16 + u / 256 % 16;
    assert u / 16 == u / 256 * 16 + u / 16 % 16;
  }

  lemma HexDigitValue(d: int)
    requires 0 <= d < 16
    ensures HexValue(HexDigit(d)) == Some(d)
  {}

  lemma EscapeRoundTrip(u: Unit, rest: Units)
    ensures EscapeUnit(u) != []
    ensures EscapeUnit(u) == [u] ==> u != BACKSLASH && u != QUOTE && u >= 32
    ensures EscapeUnit(u) != [u] ==> EscapeUnit(u)[0] == BACKSLASH && ParseEscape(EscapeUnit(u)[1..] + rest) == Some((u, rest))
  {
    if u == QUOTE || u == BACKSLASH || u == 8 || u == 9 || u == 10 || u == 12 || u == 13 {
      assert ([EscapeUnit(u)[1]] + rest)[1..] == rest;
      assert EscapeUnit(u)[1..] == [EscapeUnit(u)[1]];
    } else if u < 32 || Lead(u) || Trail(u) {
      assert EscapeUnit(u)[1..] == [LETTER_U] + Hex4(u);
      HexRoundTrip(u, rest);
    }
  }

  /** One code unit of a string, literal or escaped. */
  lemma ReadsUnit(x: Units, u: Unit, y: Units, s: Units, rest: Units)
    requires x != [] && x[0] >= 32 && x[0] != QUOTE && ParseString(y) == Some((s, rest))
    requires if x[0] == BACKSLASH then ParseEscape(x[1..]) == Some((u, y)) else u == x[0] && y == x[1..]
    ensures ParseString(x) == Some(([u] + s, rest))
  {
    hide ParseEscape;
  }

  lemma ReadsPair(lead: Unit, trail: Unit, y: Units, s: Units, rest: Units)
    requires Lead(lead) && Trail(trail) && ParseString(y) == Some((s, rest))
    ensures ParseString([lead, trail] + y) == Some(([lead, trail] + s, rest))
  {
    hide ParseString;
    var half := [trail] + y;
    assert half[1..] == y;
    ReadsUnit(half, trail, y, s, rest);
    assert [lead, trail] + y == [lead] + half && ([lead] + half)[1..] == half;
    ReadsUnit([lead] + half, lead, half, [trail] + s, rest);
    assert [lead] + ([trail] + s) == [lead, trail] + s;
  }

  lemma ReadsEscaped(u: Unit, y: Units, s: Units, rest: Units)
    requires ParseString(y) == Some((s, rest))
    ensures ParseString(EscapeUnit(u) + y) == Some(([u] + s, rest))
  {
    hide ParseString, EscapeUnit, ParseEscape;
    EscapeRoundTrip(u, y);
    var x := EscapeUnit(u) + y;
    assert x[1..] == EscapeUnit(u)[1..] + y;
    ReadsUnit(x, u, y, s, rest);
  }

  /** The printer takes one code unit, or a surrogate pair, at a time. */
  function UnitsTaken(s: Units): (n: nat)
    requires s != []
    ensures 1 <= n <= |s|
  {
    if |s| >= 2 && Lead(s[0]) && Trail(s[1]) then 2 else 1
  }

  function Printed(s: Units): Units
    requires s != []
  {
    if UnitsTaken(s) == 2 then s[..2] else EscapeUnit(s[0])
  }

  lemma EscapedStep(s: Units)
    requires s != []
    ensures Escaped(s) == Printed(s) + Escaped(s[UnitsTaken(s)..])
  {
    hide EscapeUnit;
  }

  lemma ReadsStep(s: Units, y: Units, rest: Units)
    requires s != [] && ParseString(y) == Some((s[UnitsTaken(s)..], rest))
    ensures ParseString(Printed(s) + y) == Some((s, rest))
  {
    hide ParseString, EscapeUnit;
    if UnitsTaken(s) == 2 {
      ReadsPair(s[0], s[1], y, s[2..], rest);
      assert s[..2] == [s[0], s[1]];
    } else {
      ReadsEscaped(s[0], y, s[1..], rest);
      assert s[..1] == [s[0]];
    }
    assert s == s[..UnitsTaken(s)] + s[UnitsTaken(s)..];
  }

  lemma {:induction false} StringRoundTrip(s: Units, rest: Units)
    ensures ParseString(Escaped(s) + [QUOTE] + rest) == Some((s, rest))
  {
    hide Printed, UnitsTaken;
    if s == [] {
      assert Escaped(s) + [QUOTE] + rest == [QUOTE] + rest && ([QUOTE] + rest)[1..] == rest;
    } else {
      hide ParseString, Escaped;
      StringRoundTrip(s[UnitsTaken(s)..], rest);
      ReadsStep(s, Escaped(s[UnitsTaken(s)..]) + [QUOTE] + rest, rest);
      EscapedStep(s);
      Reassociate(Printed(s), Escaped(s[UnitsTaken(s)..]), [QUOTE], rest);
    }
  }

  lemma Reassociate(a: Units, b: Units, c: Units, d: Units)
    ensures a + b + c + d == a + (b + c + d)
  {}

  lemma {:induction false} DigitsRoundTrip(n: nat)
    ensures NumberOf(Digits(n)) == n
  {
    if n >= 10 {
      DigitsRoundTrip(n / 10);
      assert Digits(n)[..|Digits(n)| - 1] == Digits(n / 10);
    }
  }

  /** A number's text ends where no digit follows. */
  predicate Delimited(rest: Units) {
    rest == [] || !IsDigit(rest[0])
  }

  lemma {:induction false} RunOfDigits(ds: Units, rest: Units)
    requires Delimited(rest) && forall i | 0 <= i < |ds| :: IsDigit(ds[i])
    ensures DigitRun(ds + rest) == |ds|
  {
    if ds == [] {
      assert ds + rest == rest;
    } else {
      assert (ds + rest)[1..] == ds[1..] + rest;
      RunOfDigits(ds[1..], rest);
    }
  }

  lemma NumberRoundTrip(n: int, rest: Units)
    requires Delimited(rest)
    ensures ParseNumber(Decimal(n) + rest) == Some((Num(n), rest))
  {
    hide Digits, NumberOf, DigitRun;
    var ds := Digits(if n < 0 then -n else n);
    var x, y := Decimal(n) + rest, ds + rest;
    RunOfDigits(ds, rest);
    DigitsRoundTrip(if n < 0 then -n else n);
    assert y[..|ds|] == ds && y[|ds|..] == rest && y[0] == ds[0];
    if n < 0 {
      assert x[0] == MINUS && x[1..] == y;
    } else {
      assert x == y && x[0] != MINUS;
    }
  }

  // One step of the reader each, for the printer's first character.

  /** Not starting with white space. */
  predicate Tight(x: Units) { x == [] || !Space(x[0]) }

  predicate Plain(x: Units) {
    x != [] && x[0] != NULL_WORD[0] && x[0] != TRUE_WORD[0] && x[0] != FALSE_WORD[0]
  }

  lemma ReadsString(x: Units, s: Units, rest: Units)
    requires x != [] && x[0] == QUOTE && ParseString(x[1..]) == Some((s, rest))
    ensures ParseValue(x) == Some((Str(s), rest))
  {
    hide ParseString, ParseItems, ParseMembers, ParseNumber;
  }

  lemma ReadsNumber(x: Units)
    requires Plain(x) && x[0] != QUOTE && x[0] != LEFT_BRACKET && x[0] != LEFT_BRACE
    ensures ParseValue(x) == ParseNumber(x)
  {
    hide ParseString, ParseItems, ParseMembers, ParseNumber;
  }

  lemma ReadsArray(x: Units, items: Items, rest: Units)
    requires |x| > 1 && x[0] == LEFT_BRACKET && x[1] != RIGHT_BRACKET && !Space(x[1]) && ParseItems(x[1..]) == Some((items, rest))
    ensures ParseValue(x) == Some((Arr(items), rest))
  {
    hide ParseString, ParseItems, ParseMembers, ParseNumber;
  }

  lemma ReadsObject(x: Units, members: Members, rest: Units)
    requires |x| > 1 && x[0] == LEFT_BRACE && x[1] != RIGHT_BRACE && !Space(x[1]) && ParseMembers(x[1..]) == Some((members, rest))
    ensures ParseValue(x) == Some((Obj(members), rest))
  {
    hide ParseString, ParseItems, ParseMembers, ParseNumber;
  }

  lemma ReadsNothing(rest: Units)
    ensures ParseValue([LEFT_BRACKET, RIGHT_BRACKET] + rest) == Some((Arr(NoItems), rest))
    ensures ParseValue([LEFT_BRACE, RIGHT_BRACE] + rest) == Some((Obj(NoMembers), rest))
  {
    hide ParseString, ParseItems, ParseMembers, ParseNumber;
    assert ([LEFT_BRACKET, RIGHT_BRACKET] + rest)[1..] == [RIGHT_BRACKET] + rest && ([RIGHT_BRACKET] + rest)[1..] == rest;
    assert ([LEFT_BRACE, RIGHT_BRACE] + rest)[1..] == [RIGHT_BRACE] + rest && ([RIGHT_BRACE] + rest)[1..] == rest;
  }

  lemma ReadsWord(rest: Units)
    ensures ParseValue(NULL_WORD + rest) == Some((Null, rest))
    ensures ParseValue(TRUE_WORD + rest) == Some((Bool(true), rest))
    ensures ParseValue(FALSE_WORD + rest) == Some((Bool(false), rest))
  {
    hide ParseString, ParseItems, ParseMembers, ParseNumber;
    assert (NULL_WORD + rest)[4..] == rest && (TRUE_WORD + rest)[4..] == rest && (FALSE_WORD + rest)[5..] == rest;
    assert (TRUE_WORD + rest)[0] != NULL_WORD[0];
    assert (FALSE_WORD + rest)[0] != NULL_WORD[0] && (FALSE_WORD + rest)[0] != TRUE_WORD[0];
  }

  lemma ReadsItems(x: Units, head: Json, after: Units)
    requires ParseValue(x) == Some((head, after)) && after != []
    ensures after[0] == RIGHT_BRACKET ==> ParseItems(x) == Some((Item(head, NoItems), after[1..]))
    ensures after[0] == COMMA && Tight(after[1..]) && ParseItems(after[1..]).Some? ==>
      ParseItems(x) == Some((Item(head, ParseItems(after[1..]).value.0), ParseItems(after[1..]).value.1))
  {
    hide ParseValue;
  }

  lemma ReadsMembers(x: Units, key: Units, valueText: Units, value: Json, after: Units)
    requires x != [] && x[0] == QUOTE && ParseString(x[1..]) == Some((key, [COLON] + valueText))
    requires ParseValue(valueText) == Some((value, after)) && after != [] && Tight(valueText)
    ensures after[0] == RIGHT_BRACE ==> ParseMembers(x) == Some((Member(key, value, NoMembers), after[1..]))
    ensures after[0] == COMMA && Tight(after[1..]) && ParseMembers(after[1..]).Some? ==>
      ParseMembers(x) == Some((Member(key, value, ParseMembers(after[1..]).value.0), ParseMembers(after[1..]).value.1))
  {
    hide ParseValue, ParseString;
    assert ([COLON] + valueText)[1..] == valueText;
  }

  lemma {:induction false} ValueRoundTrip(v: Json, rest: Units)
    requires Delimited(rest)
    ensures ParseValue(Print(v) + rest) == Some((v, rest))
    decreases v, 0
  {
    hide ParseValue, ParseString, ParseNumber, PrintItems, PrintMembers, Decimal;
    var x := Print(v) + rest;
    match v
    case Null => ReadsWord(rest);
    case Bool(b) => ReadsWord(rest);
    case Num(n) =>
      NumberRoundTrip(n, rest);
      NumberStart(n);
      ReadsNumber(x);
    case Str(s) =>
      StringRoundTrip(s, rest);
      assert x[1..] == Escaped(s) + [QUOTE] + rest;
      ReadsString(x, s, rest);
    case Arr(items) => ArrayRoundTrip(items, rest);
    case Obj(members) => ObjectRoundTrip(members, rest);
  }

  lemma NumberStart(n: int)
    ensures Decimal(n) != [] && (Decimal(n)[0] == MINUS || IsDigit(Decimal(n)[0]))
  {}

  lemma {:induction false} ArrayRoundTrip(items: Items, rest: Units)
    ensures ParseValue(Print(Arr(items)) + rest) == Some((Arr(items), rest))
    decreases items, 2
  {
    hide ParseValue, ParseItems;
    var x := Print(Arr(items)) + rest;
    if items.NoItems? {
      assert x == [LEFT_BRACKET, RIGHT_BRACKET] + rest;
      ReadsNothing(rest);
    } else {
      assert x[1..] == PrintItems(items) + [RIGHT_BRACKET] + rest;
      ItemsRoundTrip(items, rest);
      ItemsStart(items);
      assert PrintItems(items)[0] == x[1];
      ReadsArray(x, items, rest);
    }
  }

  lemma {:induction false} ItemsRoundTrip(items: Items, rest: Units)
    requires items.Item?
    ensures ParseItems(PrintItems(items) + [RIGHT_BRACKET] + rest) == Some((items, rest))
    decreases items, 1
  {
    hide ParseValue, ParseItems, Print;
    var x := PrintItems(items) + [RIGHT_BRACKET] + rest;
    if items.tail.NoItems? {
      var after := [RIGHT_BRACKET] + rest;
      ValueRoundTrip(items.head, after);
      assert x == Print(items.head) + after && after[1..] == rest;
      ReadsItems(x, items.head, after);
    } else {
      var more := PrintItems(items.tail) + [RIGHT_BRACKET] + rest;
      var after := [COMMA] + more;
      ValueRoundTrip(items.head, after);
      assert x == Print(items.head) + after && after[1..] == more;
      ItemsRoundTrip(items.tail, rest);
      ItemsStart(items.tail);
      ReadsItems(x, items.head, after);
    }
  }

  /** A printed value is not empty and starts neither with a closing bracket or brace nor with white space. */
  lemma PrintStarts(v: Json)
    ensures Print(v) != [] && !Space(Print(v)[0]) && Print(v)[0] != RIGHT_BRACKET && Print(v)[0] != RIGHT_BRACE
  {
    hide PrintItems, PrintMembers, Escaped, Decimal;
    if v.Num? { NumberStart(v.n); }
  }

  lemma ItemsStart(items: Items)
    requires items.Item?
    ensures PrintItems(items) != [] && !Space(PrintItems(items)[0]) && PrintItems(items)[0] != RIGHT_BRACKET
  {
    hide Print;
    PrintStarts(items.head);
  }

  lemma {:induction false} ObjectRoundTrip(m: Members, rest: Units)
    ensures ParseValue(Print(Obj(m)) + rest) == Some((Obj(m), rest))
    decreases m, 2
  {
    hide ParseValue, ParseMembers;
    var x := Print(Obj(m)) + rest;
    if m.NoMembers? {
      assert x == [LEFT_BRACE, RIGHT_BRACE] + rest;
      ReadsNothing(rest);
    } else {
      assert x[1..] == PrintMembers(m) + [RIGHT_BRACE] + rest;
      MembersRoundTrip(m, rest);
      MembersStart(m);
      assert x[1] == PrintMembers(m)[0];
      ReadsObject(x, m, rest);
    }
  }

  lemma MembersStart(m: Members)
    requires m.Member?
    ensures PrintMembers(m) != [] && PrintMembers(m)[0] == QUOTE
  {
    hide Print, Escaped;
  }

  lemma {:induction false} MembersRoundTrip(m: Members, rest: Units)
    requires m.Member?
    ensures ParseMembers(PrintMembers(m) + [RIGHT_BRACE] + rest) == Some((m, rest))
    decreases m, 1
  {
    hide ParseValue, ParseMembers, ParseString, Print, Escaped;
    var x := PrintMembers(m) + [RIGHT_BRACE] + rest;
    var more := PrintMembers(m.rest) + [RIGHT_BRACE] + rest;
    var after := if m.rest.NoMembers? then [RIGHT_BRACE] + rest else [COMMA] + more;
    var valueText := Print(m.value) + after;
    MembersText(m, rest, after);
    assert x[0] == QUOTE;
    StringRoundTrip(m.key, [COLON] + valueText);
    ValueRoundTrip(m.value, after);
    PrintStarts(m.value);
    if m.rest.NoMembers? {
      assert after[1..] == rest;
    } else {
      assert after[1..] == more;
      MembersRoundTrip(m.rest, rest);
      MembersStart(m.rest);
    }
    ReadsMembers(x, m.key, valueText, m.value, after);
  }

  lemma MembersText(m: Members, rest: Units, after: Units)
    requires m.Member?
    requires after == if m.rest.NoMembers? then [RIGHT_BRACE] + rest else [COMMA] + (PrintMembers(m.rest) + [RIGHT_BRACE] + rest)
    ensures var x := PrintMembers(m) + [RIGHT_BRACE] + rest;
      && x != [] && x[0] == QUOTE
      && x[1..] == Escaped(m.key) + [QUOTE] + ([COLON] + (Print(m.value) + after))
  {
    hide *;
    var more := PrintMembers(m.rest);
    var tail := if m.rest.NoMembers? then [] else [COMMA] + more;
    PrintedMembers(m);
    Joined(more, rest);
    assert tail + [RIGHT_BRACE] + rest == after;
    Regroup(Quoted(m.key), [COLON], Print(m.value), tail, [RIGHT_BRACE], rest, after);
    QuotedTail(m.key, [COLON] + (Print(m.value) + after));
  }

  lemma PrintedMembers(m: Members)
    requires m.Member?
    ensures PrintMembers(m) == Quoted(m.key) + [COLON] + Print(m.value) + (if m.rest.NoMembers? then [] else [COMMA] + PrintMembers(m.rest))
  {
    hide Print, Quoted;
  }

  lemma Joined(more: Units, rest: Units)
    ensures [COMMA] + more + [RIGHT_BRACE] + rest == [COMMA] + (more + [RIGHT_BRACE] + rest)
    ensures [] + [RIGHT_BRACE] + rest == [RIGHT_BRACE] + rest
  {}

  lemma Regroup(a: Units, b: Units, c: Units, d: Units, e: Units, f: Units, def: Units)
    requires d + e + f == def
    ensures a + b + c + d + e + f == a + (b + (c + def))
  {}

  lemma QuotedTail(s: Units, y: Units)
    ensures Quoted(s) + y != [] && (Quoted(s) + y)[0] == QUOTE && (Quoted(s) + y)[1..] == Escaped(s) + [QUOTE] + y
  {
    hide Escaped;
  }

  /** A whole text: one value between white space. */
  function ParseText(x: Units): Option<Json> {
    match ParseValue(Skip(x))
    case None => None
    case Some((v, rest)) => if Skip(rest) == [] then Some(v) else None
  }

  /** Reading JSON.stringify's text gives the value back, member order included. */
  lemma StringifyRoundTrip(v: Json)
    ensures ParseText(Print(v)) == Some(v)
  {
    ValueRoundTrip(v, []);
    PrintStarts(v);
    assert Print(v) + [] == Print(v);
  }

  /** So JSON.stringify is one-to-one; the engine uses it to build the keys of its maps from pairs. */
  lemma StringifyDeterminesValue(v: Json, w: Json)
    ensures Print(v) == Print(w) <==> v == w
  {
    StringifyRoundTrip(v);
    StringifyRoundTrip(w);
  }

  /** Reading canonical text gives the value with its keys sorted. */
  lemma CanonicalRoundTrip(v: Json)
    ensures ParseText(Canonical(v)) == Some(Normal(v))
  {
    CanonicalIsSortedPrint(v);
    StringifyRoundTrip(Normal(v));
  }

  // ---------- sorted keys determine the value ----------

  /** Before: a proper prefix, or the smaller code unit at the first place where the two differ. */
  lemma {:induction false} BeforeMeaning(a: Units, b: Units)
    ensures Before(a, b) <==> exists n :: Differs(a, b, n)
  {
    if a == [] || b == [] || a[0] != b[0] {
      if Before(a, b) { assert Differs(a, b, 0); }
      if n :| Differs(a, b, n) { assert n > 0 ==> a[..n][0] == b[..n][0]; }
    } else {
      BeforeMeaning(a[1..], b[1..]);
      if n :| Differs(a[1..], b[1..], n) {
        assert a[..n + 1] == [a[0]] + a[1..][..n] && b[..n + 1] == [b[0]] + b[1..][..n];
        assert Differs(a, b, n + 1);
      }
      if n :| Differs(a, b, n) {
        assert a[1..][..n - 1] == a[..n][1..] && b[1..][..n - 1] == b[..n][1..];
        assert Differs(a[1..], b[1..], n - 1);
      }
    }
  }

  ghost predicate Differs(a: Units, b: Units, n: int) {
    && 0 <= n <= |a| && n <= |b| && a[..n] == b[..n]
    && n < |b| && (n == |a| || a[n] < b[n])
  }

  lemma {:induction false} BeforeIsTotal(a: Units, b: Units)
    ensures Before(a, b) || a == b || Before(b, a)
    ensures !(Before(a, b) && Before(b, a)) && !Before(a, a)
  {
    if a != [] && b != [] {
      BeforeIsTotal(a[1..], b[1..]);
      assert a == [a[0]] + a[1..] && b == [b[0]] + b[1..];
    }
    if a != [] { BeforeIsTotal(a[1..], a[1..]); }
  }

  lemma {:induction false} BeforeIsTransitive(a: Units, b: Units, c: Units)
    requires Before(a, b) && Before(b, c)
    ensures Before(a, c)
  {
    if a != [] && a[0] == b[0] == c[0] { BeforeIsTransitive(a[1..], b[1..], c[1..]); }
  }

  predicate Ascending(m: Members) {
    m.Member? ==> Ascending(m.rest) && (m.rest.Member? ==> Before(m.key, m.rest.key))
  }

  lemma {:induction false} AscendingStartsLowest(m: Members, k: Units)
    requires Ascending(m) && m.Member? && HasKey(m.rest, k)
    ensures Before(m.key, k)
  {
    if m.rest.key != k {
      AscendingStartsLowest(m.rest, k);
      BeforeIsTransitive(m.key, m.rest.key, k);
    }
  }

  lemma {:induction false} InsertionKeeps(key: Units, value: Json, m: Members)
    requires Ascending(m) && !HasKey(m, key)
    ensures Ascending(InsertMember(key, value, m))
    ensures forall k :: HasKey(InsertMember(key, value, m), k) <==> k == key || HasKey(m, k)
    ensures Lookup(InsertMember(key, value, m), key) == value
    ensures forall k | HasKey(m, k) :: Lookup(InsertMember(key, value, m), k) == Lookup(m, k)
  {
    if m.Member? && !Before(key, m.key) {
      InsertionKeeps(key, value, m.rest);
      BeforeIsTotal(key, m.key);
    }
  }

  /** Sorting the keys keeps the map. */
  lemma {:induction false} NormalKeepsMap(m: Members)
    requires UniqueMembers(m)
    ensures Ascending(NormalMembers(m))
    ensures forall k :: HasKey(NormalMembers(m), k) <==> HasKey(m, k)
    ensures forall k | HasKey(m, k) :: Lookup(NormalMembers(m), k) == Normal(Lookup(m, k))
  {
    if m.Member? {
      NormalKeepsMap(m.rest);
      InsertionKeeps(m.key, Normal(m.value), NormalMembers(m.rest));
    }
  }

  ghost predicate SameMap(m: Members, n: Members) {
    && (forall k :: HasKey(m, k) <==> HasKey(n, k))
    && (forall k | HasKey(m, k) && HasKey(n, k) :: Lookup(m, k) == Lookup(n, k))
  }

  lemma {:induction false} AscendingIsUnique(m: Members, n: Members)
    requires Ascending(m) && Ascending(n) && SameMap(m, n)
    ensures m == n
  {
    assert m.Member? ==> HasKey(m, m.key);
    assert n.Member? ==> HasKey(n, n.key);
    if m.Member? && n.Member? {
      LowestKeysAgree(m, n);
      forall k ensures HasKey(m.rest, k) <==> HasKey(n.rest, k) { LowestIsOnce(m, k); LowestIsOnce(n, k); }
      forall k | HasKey(m.rest, k) && HasKey(n.rest, k) ensures Lookup(m.rest, k) == Lookup(n.rest, k) {
        LowestIsOnce(m, k);
        assert Lookup(m, k) == Lookup(n, k);
      }
      AscendingIsUnique(m.rest, n.rest);
      assert Lookup(m, m.key) == Lookup(n, n.key);
    }
  }

  lemma LowestIsOnce(m: Members, k: Units)
    requires Ascending(m) && m.Member?
    ensures HasKey(m.rest, k) ==> k != m.key
    ensures HasKey(m.rest, k) <==> HasKey(m, k) && k != m.key
  {
    if HasKey(m.rest, k) {
      AscendingStartsLowest(m, k);
      BeforeIsTotal(m.key, k);
    }
  }

  lemma LowestKeysAgree(m: Members, n: Members)
    requires Ascending(m) && Ascending(n) && SameMap(m, n) && m.Member? && n.Member?
    ensures m.key == n.key
  {
    assert HasKey(n, m.key) && HasKey(m, n.key);
    if m.key != n.key {
      AscendingStartsLowest(m, n.key);
      AscendingStartsLowest(n, m.key);
      BeforeIsTotal(m.key, n.key);
    }
  }

  lemma {:induction false} LookupUnique(m: Members, k: Units)
    requires UniqueMembers(m) && HasKey(m, k)
    ensures UniqueKeys(Lookup(m, k))
  {
    if m.key != k { LookupUnique(m.rest, k); }
  }

  /** Sorted values are equal exactly for values that are the same up to key order. */
  lemma {:induction false} NormalIffSame(v: Json, w: Json)
    requires UniqueKeys(v) && UniqueKeys(w)
    ensures Normal(v) == Normal(w) <==> Same(v, w)
    decreases v
  {
    match (v, w)
    case (Arr(a), Arr(b)) => NormalItemsIffSame(a, b);
    case (Obj(m), Obj(n)) =>
      NormalKeepsMap(m);
      NormalKeepsMap(n);
      forall k | HasKey(m, k) && HasKey(n, k)
        ensures Lookup(NormalMembers(m), k) == Lookup(NormalMembers(n), k) <==> Same(Lookup(m, k), Lookup(n, k))
      {
        LookupUnique(m, k);
        LookupUnique(n, k);
        NormalIffSame(Lookup(m, k), Lookup(n, k));
      }
      if Same(v, w) {
        AscendingIsUnique(NormalMembers(m), NormalMembers(n));
      }
    case _ =>
  }

  lemma {:induction false} NormalItemsIffSame(a: Items, b: Items)
    requires UniqueKeysIn(a) && UniqueKeysIn(b)
    ensures NormalItems(a) == NormalItems(b) <==> SameItems(a, b)
    decreases a
  {
    if a.Item? && b.Item? {
      NormalIffSame(a.head, b.head);
      NormalItemsIffSame(a.tail, b.tail);
    }
  }

  /** Two values have one canonical text exactly when they are the same value. */
  lemma CanonicalDeterminesValue(v: Json, w: Json)
    requires UniqueKeys(v) && UniqueKeys(w)
    ensures Canonical(v) == Canonical(w) <==> Same(v, w)
  {
    NormalIffSame(v, w);
    CanonicalRoundTrip(v);
    CanonicalRoundTrip(w);
    CanonicalIsSortedPrint(v);
    CanonicalIsSortedPrint(w);
  }
}
