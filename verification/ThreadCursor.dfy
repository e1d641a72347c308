/** The printed position a thread list resumes after: `v1:<sort key>:<direction>:<value>:<thread id>`. */
module ThreadCursor {
  import opened Wrappers

  newtype i64 = x: int | -0x8000_0000_0000_0000 <= x < 0x8000_0000_0000_0000

  datatype SortKey = CreatedAt | UpdatedAt | RecencyAt

  datatype Direction = Asc | Desc

  /** Where a thread stands in the order: its sort value, then its id. */
  datatype Spot = Spot(value: i64, id: string)

  datatype Cursor = Cursor(key: SortKey, direction: Direction, spot: Spot)

  // --- Numerals ---

  predicate IsDigit(c: char) {
    '0' <= c <= '9'
  }

  function DigitValue(c: char): (d: nat)
    requires IsDigit(c)
    ensures d < 10 && (d == 0 <==> c == '0')
  {
    c as int - '0' as int
  }

  predicate AllDigits(s: string) {
    forall i :: 0 <= i < |s| ==> IsDigit(s[i])
  }

  function Numeral(n: nat): (s: string)
    ensures s != "" && AllDigits(s)
  {
    var digit := [(n % 10 + '0' as int) as char];
    if n < 10 then digit else Numeral(n / 10) + digit
  }

  function NumeralValue(s: string): (n: nat)
    requires AllDigits(s)
  {
    if s == "" then 0 else NumeralValue(s[..|s| - 1]) * 10 + DigitValue(s[|s| - 1])
  }

  lemma {:induction false} NumeralValueOfNumeral(n: nat)
    ensures NumeralValue(Numeral(n)) == n
  {
    var s := Numeral(n);
    if n >= 10 {
      assert s[..|s| - 1] == Numeral(n / 10);
      NumeralValueOfNumeral(n / 10);
    }
  }

  lemma {:induction false} NumeralOfDigit(s: string)
    requires AllDigits(s) && |s| == 1
    ensures NumeralValue(s) == DigitValue(s[0]) && Numeral(NumeralValue(s)) == s
  {
    assert NumeralValue(s[..0]) == 0;
  }

  /** Printing gives back the same digits exactly when they carry no leading zero. */
  lemma {:induction false} NumeralOfValue(s: string)
    requires AllDigits(s) && s != ""
    ensures Numeral(NumeralValue(s)) == s <==> |s| == 1 || s[0] != '0'
    ensures NumeralValue(s) == 0 ==> s[0] == '0'
    ensures |s| > 1 && s[0] != '0' ==> NumeralValue(s) >= 10
    decreases |s|
  {
    if |s| == 1 {
      NumeralOfDigit(s);
    } else {
      var init, last := s[..|s| - 1], s[|s| - 1];
      NumeralOfValue(init);
      var n := NumeralValue(s);
      assert n == NumeralValue(init) * 10 + DigitValue(last);
      if n >= 10 {
        assert n / 10 == NumeralValue(init) && n % 10 == DigitValue(last);
        assert Numeral(n) == Numeral(n / 10) + [last] && s == init + [last];
        if Numeral(n) == s {
          assert Numeral(n / 10) == Numeral(n)[..|s| - 1] == init;
        }
      }
    }
  }

  function PrintValue(v: i64): (s: string) {
    if v < 0 then "-" + Numeral(-(v as int)) else Numeral(v as int)
  }

  /** Digits, optionally after one minus sign, within the range of the type. */
  function ParseValue(s: string): (v: Option<i64>) {
    var negative := s != "" && s[0] == '-';
    var digits := if negative then s[1..] else s;
    if digits == "" || !AllDigits(digits) then None
    else
      var n: int := if negative then 0 - NumeralValue(digits) else NumeralValue(digits);
      if -0x8000_0000_0000_0000 <= n < 0x8000_0000_0000_0000 then Some(n as i64) else None
  }

  lemma {:induction false} ParseOfPrint(v: i64)
    ensures ParseValue(PrintValue(v)) == Some(v) && ':' !in PrintValue(v)
  {
    if v < 0 {
      NumeralValueOfNumeral(-(v as int));
      assert PrintValue(v)[1..] == Numeral(-(v as int));
    } else {
      NumeralValueOfNumeral(v as int);
      assert PrintValue(v)[0] in Numeral(v as int);
    }
  }

  function Pow10(k: nat): (p: nat)
    ensures p > 0
  {
    if k == 0 then 1 else 10 * Pow10(k - 1)
  }

  /** The printed digits are the decimal ones: place `k` from the right holds the count of `Pow10(k)`. */
  lemma {:induction false} NumeralDigits(n: nat, k: nat)
    requires k < |Numeral(n)|
    ensures Numeral(n)[|Numeral(n)| - 1 - k] as int == '0' as int + n / Pow10(k) % 10
  {
    if k > 0 {
      NumeralDigits(n / 10, k - 1);
      DivideTwice(n, 10, Pow10(k - 1));
    }
  }

  /** How a value is written when it has no leading zero and is not minus zero. */
  predicate Canonical(s: string) {
    s == "0" || (s != "" && s[0] != '0' && s != "-0" && (s[0] == '-' ==> |s| > 1 && s[1] != '0'))
  }

  lemma {:induction false} PrintOfParse(s: string)
    requires ParseValue(s).Some?
    ensures PrintValue(ParseValue(s).value) == s <==> Canonical(s)
  {
    if s[0] == '-' {
      PrintOfNegative(s[1..]);
      assert s == "-" + s[1..];
    } else {
      NumeralOfValue(s);
    }
  }

  lemma {:induction false} PrintOfNegative(digits: string)
    requires digits != "" && AllDigits(digits) && NumeralValue(digits) <= 0x8000_0000_0000_0000
    ensures PrintValue((0 - NumeralValue(digits)) as i64) == "-" + digits <==> digits[0] != '0'
  {
    NumeralOfValue(digits);
    var n: int := NumeralValue(digits);
    var printed := PrintValue((0 - n) as i64);
    if n == 0 {
      assert IsDigit(printed[0]);
    } else {
      assert printed[1..] == Numeral(n) && printed == "-" + Numeral(n);
      assert ("-" + digits)[1..] == digits;
      if |digits| == 1 { NumeralOfDigit(digits); }
    }
  }

  // --- Splitting at colons ---

  function Field(head: string, rest: string): (s: string) {
    head + ":" + rest
  }

  /** The text before and after the first colon. */
  function SplitOnce(s: string): (parts: Option<(string, string)>)
    ensures parts.None? <==> ':' !in s
    ensures parts.Some? ==> s == Field(parts.value.0, parts.value.1) && ':' !in parts.value.0
  {
    if s == "" then None
    else if s[0] == ':' then Some(("", s[1..]))
    else
      match SplitOnce(s[1..])
      case None => None
      case Some(rest) =>
        assert s == [s[0]] + s[1..];
        Some(([s[0]] + rest.0, rest.1))
  }

  lemma {:induction false} SplitOfJoin(head: string, rest: string)
    requires ':' !in head
    ensures SplitOnce(Field(head, rest)) == Some((head, rest))
  {
    var s := Field(head, rest);
    if head == "" {
      assert s[1..] == rest;
    } else {
      SplitOfJoin(head[1..], rest);
      assert s[1..] == Field(head[1..], rest);
      assert head == [head[0]] + head[1..];
    }
  }

  // --- The cursor ---

  function KeyName(key: SortKey): (s: string)
    ensures ':' !in s
  {
    match key
    case CreatedAt => "createdAt"
    case UpdatedAt => "updatedAt"
    case RecencyAt => "recencyAt"
  }

  function KeyOf(s: string): (key: Option<SortKey>)
    ensures forall k :: key == Some(k) <==> s == KeyName(k)
  {
    assert "createdAt"[0] != "updatedAt"[0] && "createdAt"[0] != "recencyAt"[0] && "updatedAt"[0] != "recencyAt"[0];
    if s == "createdAt" then Some(CreatedAt)
    else if s == "updatedAt" then Some(UpdatedAt)
    else if s == "recencyAt" then Some(RecencyAt)
    else None
  }

  function DirectionName(direction: Direction): (s: string)
    ensures ':' !in s
  {
    match direction
    case Asc => "asc"
    case Desc => "desc"
  }

  function DirectionOf(s: string): (direction: Option<Direction>)
    ensures forall d :: direction == Some(d) <==> s == DirectionName(d)
  {
    if s == "asc" then Some(Asc) else if s == "desc" then Some(Desc) else None
  }

  function Tail(cursor: Cursor, value: string): (s: string) {
    Field(KeyName(cursor.key), Field(DirectionName(cursor.direction), Field(value, cursor.spot.id)))
  }

  function Encode(cursor: Cursor): (s: string) {
    "v1:" + Tail(cursor, PrintValue(cursor.spot.value))
  }

  function DecodeFields(key: string, direction: string, value: string, id: string): (cursor: Option<Cursor>) {
    var (k, d, v) := (KeyOf(key), DirectionOf(direction), ParseValue(value));
    if k.Some? && d.Some? && v.Some? && id != "" then Some(Cursor(k.value, d.value, Spot(v.value, id))) else None
  }

  function DecodeRest(rest: string): (cursor: Option<Cursor>) {
    match SplitOnce(rest)
    case None => None
    case Some((key, afterKey)) =>
      match SplitOnce(afterKey)
      case None => None
      case Some((direction, afterDirection)) =>
        match SplitOnce(afterDirection)
        case None => None
        case Some((value, id)) => DecodeFields(key, direction, value, id)
  }

  function Decode(s: string): (cursor: Option<Cursor>) {
    if "v1:" <= s then DecodeRest(s[3..]) else None
  }

  /** Reads any spelling of a position. */
  lemma {:induction false} DecodeOfSpelling(cursor: Cursor, value: string)
    requires ParseValue(value) == Some(cursor.spot.value) && ':' !in value
    ensures Decode("v1:" + Tail(cursor, value)) == if cursor.spot.id != "" then Some(cursor) else None
  {
    var s := "v1:" + Tail(cursor, value);
    assert s[3..] == Tail(cursor, value);
    assert s[..3] == "v1:";
    var last := Field(value, cursor.spot.id);
    SplitOfJoin(KeyName(cursor.key), Field(DirectionName(cursor.direction), last));
    SplitOfJoin(DirectionName(cursor.direction), last);
    SplitOfJoin(value, cursor.spot.id);
  }

  /** What a cursor looks like: the version, the names of its order, the decimal value and the id, with colons between. */
  lemma {:induction false} EncodeSpells(cursor: Cursor, digits: string)
    requires digits == Numeral(if cursor.spot.value < 0 then -(cursor.spot.value as int) else cursor.spot.value as int)
    ensures var key := match cursor.key case CreatedAt => "createdAt" case UpdatedAt => "updatedAt" case RecencyAt => "recencyAt";
            var direction := if cursor.direction == Asc then "asc" else "desc";
            var sign := if cursor.spot.value < 0 then "-" else "";
            Encode(cursor) == "v1:" + key + ":" + direction + ":" + sign + digits + ":" + cursor.spot.id
  {
    var value := PrintValue(cursor.spot.value);
    assert value == (if cursor.spot.value < 0 then "-" else "") + digits;
    JoinFour(KeyName(cursor.key), DirectionName(cursor.direction), value, cursor.spot.id);
  }

  lemma {:induction false} JoinFour(a: string, b: string, c: string, d: string)
    ensures "v1:" + Field(a, Field(b, Field(c, d))) == "v1:" + a + ":" + b + ":" + c + ":" + d
  {
  }

  /** A printed cursor reads back as itself, whatever colons its id holds, exactly unless its id is empty. */
  lemma {:induction false} DecodeOfEncode(cursor: Cursor)
    ensures Decode(Encode(cursor)) == if cursor.spot.id != "" then Some(cursor) else None
  {
    ParseOfPrint(cursor.spot.value);
    DecodeOfSpelling(cursor, PrintValue(cursor.spot.value));
  }

  /** What is accepted: some spelling of the value, a known key and direction, an id. */
  lemma {:induction false} DecodedIsSpelling(s: string) returns (value: string)
    requires Decode(s).Some?
    ensures var cursor := Decode(s).value;
            && s == "v1:" + Tail(cursor, value) && ParseValue(value) == Some(cursor.spot.value)
            && ':' !in value && cursor.spot.id != ""
  {
    value := RestIsSpelling(s[3..]);
    StartsWith(s, "v1:");
  }

  lemma {:induction false} StartsWith(s: string, head: string)
    requires head <= s
    ensures s == head + s[|head|..]
  {
  }

  lemma {:induction false} RestIsSpelling(rest: string) returns (value: string)
    requires DecodeRest(rest).Some?
    ensures var cursor := DecodeRest(rest).value;
            && rest == Tail(cursor, value) && ParseValue(value) == Some(cursor.spot.value)
            && ':' !in value && cursor.spot.id != ""
  {
    var key, afterKey := SplitOnce(rest).value.0, SplitOnce(rest).value.1;
    var direction, afterDirection := SplitOnce(afterKey).value.0, SplitOnce(afterKey).value.1;
    value := SplitOnce(afterDirection).value.0;
    var cursor := DecodeFields(key, direction, value, SplitOnce(afterDirection).value.1).value;
    assert KeyName(cursor.key) == key && DirectionName(cursor.direction) == direction;
  }

  /** An accepted cursor is what printing it gives, exactly when its value is written canonically. */
  lemma {:induction false} EncodeOfDecode(s: string) returns (value: string)
    requires Decode(s).Some?
    ensures s == "v1:" + Tail(Decode(s).value, value) && (Encode(Decode(s).value) == s <==> Canonical(value))
  {
    value := DecodedIsSpelling(s);
    var cursor := Decode(s).value;
    PrintOfParse(value);
    var printed := PrintValue(cursor.spot.value);
    ParseOfPrint(cursor.spot.value);
    if Encode(cursor) == s {
      assert Tail(cursor, printed) == s[3..] == Tail(cursor, value);
      FieldsMatch(cursor, value, printed);
    }
  }

  /** Two spellings of one position differ only in the value. */
  lemma {:induction false} FieldsMatch(cursor: Cursor, a: string, b: string)
    requires Tail(cursor, a) == Tail(cursor, b) && ':' !in a && ':' !in b
    ensures a == b
  {
    DropHead(KeyName(cursor.key), Field(DirectionName(cursor.direction), Field(a, cursor.spot.id)), Field(DirectionName(cursor.direction), Field(b, cursor.spot.id)));
    DropHead(DirectionName(cursor.direction), Field(a, cursor.spot.id), Field(b, cursor.spot.id));
    SplitOfJoin(a, cursor.spot.id);
    SplitOfJoin(b, cursor.spot.id);
  }

  lemma {:induction false} DropHead(head: string, a: string, b: string)
    requires Field(head, a) == Field(head, b)
    ensures a == b
  {
    assert a == Field(head, a)[|head| + 1..];
    assert b == Field(head, b)[|head| + 1..];
  }
}
