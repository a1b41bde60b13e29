/** The payload of the OPEN frame: a command name and its arguments as
    length-prefixed fields, and the strict parser on the server's side. */
module OpenRequest {
  import opened Wire

  datatype Request = Request(command: seq<byte>, args: seq<seq<byte>>)

  datatype Error = Truncated | FieldTooLong | NotUtf8 | EmptyCommand | TooManyArguments | TrailingBytes

  datatype Result<+T> = Ok(value: T) | Err(error: Error)

  predicate Continues(b: byte) { 0x80 <= b <= 0xBF }

  /** How many bytes the well-formed UTF-8 sequence at the front of `s` takes;
      0 if there is none (Unicode Standard, table 3-7). */
  function SequenceLength(s: seq<byte>): (n: nat)
    ensures n <= |s|
  {
    if s == [] then 0
    else if s[0] < 0x80 then 1
    else if |s| >= 2 && 0xC2 <= s[0] <= 0xDF && Continues(s[1]) then 2
    else if |s| >= 3 && 0xE0 <= s[0] <= 0xEF && Continues(s[1]) && Continues(s[2])
      && (s[0] == 0xE0 ==> s[1] >= 0xA0) && (s[0] == 0xED ==> s[1] <= 0x9F) then 3
    else if |s| >= 4 && 0xF0 <= s[0] <= 0xF4 && Continues(s[1]) && Continues(s[2]) && Continues(s[3])
      && (s[0] == 0xF0 ==> s[1] >= 0x90) && (s[0] == 0xF4 ==> s[1] <= 0x8F) then 4
    else 0
  }

  predicate IsUtf8(s: seq<byte>)
    decreases |s|
  {
    s == [] || (SequenceLength(s) > 0 && IsUtf8(s[SequenceLength(s)..]))
  }

  // ----- UTF-8, from the characters' side -----

  predicate IsScalar(c: int) { 0 <= c < 0xD800 || 0xE000 <= c < 0x11_0000 }

  type Scalar = c: int | 0 <= c < 0xD800 || 0xE000 <= c < 0x11_0000

  function Byte(n: int): byte
    requires 0 <= n < 256
  {
    n
  }

  /** The UTF-8 bytes of one Unicode scalar value. */
  function EncodeScalar(c: Scalar): (b: seq<byte>)
    ensures 1 <= |b| <= 4
  {
    var c1 := c / 64;
    var c2 := c1 / 64;
    var c3 := c2 / 64;
    if c < 0x80 then [Byte(c)]
    else if c < 0x800 then [Byte(0xC0 + c1), Byte(0x80 + c % 64)]
    else if c < 0x1_0000 then [Byte(0xE0 + c2), Byte(0x80 + c1 % 64), Byte(0x80 + c % 64)]
    else [Byte(0xF0 + c3), Byte(0x80 + c2 % 64), Byte(0x80 + c1 % 64), Byte(0x80 + c % 64)]
  }

  function EncodeText(text: seq<Scalar>): seq<byte> {
    if text == [] then [] else EncodeScalar(text[0]) + EncodeText(text[1..])
  }

  lemma LeadOfScalar(c: Scalar)
    ensures var b := EncodeScalar(c);
            && (|b| == 1 ==> b[0] < 0x80)
            && (|b| == 2 ==> 0xC2 <= b[0] <= 0xDF && Continues(b[1]))
            && (|b| == 3 ==> 0xE0 <= b[0] <= 0xEF && Continues(b[1]) && Continues(b[2]))
            && (|b| == 3 ==> (b[0] == 0xE0 ==> b[1] >= 0xA0) && (b[0] == 0xED ==> b[1] <= 0x9F))
            && (|b| == 4 ==> 0xF0 <= b[0] <= 0xF4 && Continues(b[1]) && Continues(b[2]) && Continues(b[3]))
            && (|b| == 4 ==> (b[0] == 0xF0 ==> b[1] >= 0x90) && (b[0] == 0xF4 ==> b[1] <= 0x8F))
  {
    var c1 := c / 64;
    var c2 := c1 / 64;
    assert c == 64 * c1 + c % 64 && c1 == 64 * c2 + c1 % 64 && c2 == 64 * (c2 / 64) + c2 % 64;
  }

  lemma ScalarIsSequence(c: Scalar, rest: seq<byte>)
    ensures SequenceLength(EncodeScalar(c) + rest) == |EncodeScalar(c)|
  {
    var b := EncodeScalar(c);
    var s := b + rest;
    LeadOfScalar(c);
    assert forall i :: 0 <= i < |b| ==> s[i] == b[i];
  }

  lemma OneByte(a: byte)
    requires a < 0x80
    ensures IsScalar(a) && EncodeScalar(a) == [a]
  {
  }

  lemma TwoBytes(a: byte, b: byte) returns (c: int)
    requires 0xC2 <= a <= 0xDF && Continues(b)
    ensures IsScalar(c) && EncodeScalar(c) == [a, b]
  {
    c := (a as int - 0xC0) * 64 + (b as int - 0x80);
    assert c / 64 == a as int - 0xC0 && c % 64 == b as int - 0x80;
  }

  lemma ThreeBytes(a: byte, b1: byte, b2: byte) returns (c: int)
    requires 0xE0 <= a <= 0xEF && Continues(b1) && Continues(b2)
    requires (a == 0xE0 ==> b1 >= 0xA0) && (a == 0xED ==> b1 <= 0x9F)
    ensures IsScalar(c) && EncodeScalar(c) == [a, b1, b2]
  {
    var c1 := (a as int - 0xE0) * 64 + (b1 as int - 0x80);
    c := c1 * 64 + (b2 as int - 0x80);
    assert c / 64 == c1 && c % 64 == b2 as int - 0x80;
    assert c1 / 64 == a as int - 0xE0 && c1 % 64 == b1 as int - 0x80;
  }

  lemma FourBytes(a: byte, b1: byte, b2: byte, b3: byte) returns (c: int)
    requires 0xF0 <= a <= 0xF4 && Continues(b1) && Continues(b2) && Continues(b3)
    requires (a == 0xF0 ==> b1 >= 0x90) && (a == 0xF4 ==> b1 <= 0x8F)
    ensures IsScalar(c) && EncodeScalar(c) == [a, b1, b2, b3]
  {
    var c2 := (a as int - 0xF0) * 64 + (b1 as int - 0x80);
    var c1 := c2 * 64 + (b2 as int - 0x80);
    c := c1 * 64 + (b3 as int - 0x80);
    assert c / 64 == c1 && c % 64 == b3 as int - 0x80;
    assert c1 / 64 == c2 && c1 % 64 == b2 as int - 0x80;
    assert c2 / 64 == a as int - 0xF0 && c2 % 64 == b1 as int - 0x80;
  }

  /** A well-formed sequence encodes a scalar value. */
  lemma SequenceIsScalar(s: seq<byte>) returns (c: int)
    requires SequenceLength(s) > 0
    ensures IsScalar(c) && s[..SequenceLength(s)] == EncodeScalar(c)
  {
    var n := SequenceLength(s);
    if n == 1 {
      c := s[0];
      OneByte(s[0]);
    } else if n == 2 {
      c := TwoBytes(s[0], s[1]);
    } else if n == 3 {
      c := ThreeBytes(s[0], s[1], s[2]);
    } else {
      c := FourBytes(s[0], s[1], s[2], s[3]);
    }
  }

  lemma {:induction false} TextIsUtf8(text: seq<Scalar>)
    ensures IsUtf8(EncodeText(text))
  {
    if text != [] {
      ScalarIsSequence(text[0], EncodeText(text[1..]));
      TextIsUtf8(text[1..]);
      assert (EncodeScalar(text[0]) + EncodeText(text[1..]))[|EncodeScalar(text[0])|..] == EncodeText(text[1..]);
    }
  }

  lemma {:induction false} Utf8IsText(s: seq<byte>) returns (text: seq<Scalar>)
    requires IsUtf8(s)
    ensures s == EncodeText(text)
    decreases |s|
  {
    if s == [] {
      text := [];
    } else {
      var n := SequenceLength(s);
      var c := SequenceIsScalar(s);
      var rest := Utf8IsText(s[n..]);
      text := [c] + rest;
      assert text[1..] == rest;
      assert s == s[..n] + s[n..];
    }
  }

  /** The bytes accepted as UTF-8 are exactly the encodings of Unicode text. */
  lemma Utf8Means(s: seq<byte>)
    ensures IsUtf8(s) <==> exists text :: s == EncodeText(text)
  {
    if IsUtf8(s) { var text := Utf8IsText(s); }
    forall text | s == EncodeText(text) ensures IsUtf8(s) { TextIsUtf8(text); }
  }

  predicate FieldsFit(fields: seq<seq<byte>>) {
    forall i :: 0 <= i < |fields| ==> |fields[i]| <= MAX_FIELD_BYTES
  }

  /** The requests the protocol allows. */
  ghost predicate Valid(r: Request) {
    && r.command != [] && IsUtf8(r.command) && |r.command| <= MAX_FIELD_BYTES
    && |r.args| <= MAX_ARGUMENTS && FieldsFit(r.args)
  }

  function EncodeField(field: seq<byte>): seq<byte>
    requires |field| < 0x1_0000_0000
  {
    U32(|field|) + field
  }

  function EncodeFields(fields: seq<seq<byte>>): seq<byte>
    requires FieldsFit(fields)
  {
    if fields == [] then [] else EncodeField(fields[0]) + EncodeFields(fields[1..])
  }

  function EncodeOpen(r: Request): seq<byte>
    requires |r.command| <= MAX_FIELD_BYTES && FieldsFit(r.args) && |r.args| <= MAX_ARGUMENTS
  {
    EncodeField(r.command) + U32(|r.args|) + EncodeFields(r.args)
  }

  // ----- the parser as a function -----

  /** A value read off the front, and what is left. */
  function TakeU32(b: seq<byte>): Result<(nat, seq<byte>)> {
    if |b| < 4 then Err(Truncated) else Ok((FromU32(b[..4]), b[4..]))
  }

  function TakeField(b: seq<byte>): Result<(seq<byte>, seq<byte>)> {
    match TakeU32(b)
    case Err(e) => Err(e)
    case Ok((n, rest)) =>
      if n > MAX_FIELD_BYTES then Err(FieldTooLong)
      else if n > |rest| then Err(Truncated)
      else Ok((rest[..n], rest[n..]))
  }

  function TakeFields(b: seq<byte>, n: nat): Result<(seq<seq<byte>>, seq<byte>)> {
    if n == 0 then Ok(([], b))
    else match TakeField(b)
      case Err(e) => Err(e)
      case Ok((field, rest)) =>
        match TakeFields(rest, n - 1)
        case Err(e) => Err(e)
        case Ok((fields, rest')) => Ok(([field] + fields, rest'))
  }

  function ParseArguments(command: seq<byte>, b: seq<byte>): Result<Request> {
    match TakeU32(b)
    case Err(e) => Err(e)
    case Ok((argc, rest)) =>
      if argc > MAX_ARGUMENTS then Err(TooManyArguments)
      else match TakeFields(rest, argc)
        case Err(e) => Err(e)
        case Ok((args, end)) => if end != [] then Err(TrailingBytes) else Ok(Request(command, args))
  }

  function Parse(payload: seq<byte>): Result<Request> {
    match TakeField(payload)
    case Err(e) => Err(e)
    case Ok((command, rest)) =>
      if !IsUtf8(command) then Err(NotUtf8)
      else if command == [] then Err(EmptyCommand)
      else ParseArguments(command, rest)
  }

  // ----- parser and printer are inverse -----

  lemma TakeU32Inverse(n: nat, b: seq<byte>, rest: seq<byte>)
    ensures n < 0x1_0000_0000 ==> TakeU32(U32(n) + rest) == Ok((n, rest))
    ensures TakeU32(b) == Ok((n, rest)) ==> n < 0x1_0000_0000 && b == U32(n) + rest
  {
    if n < 0x1_0000_0000 {
      U32RoundTrip(n);
      assert (U32(n) + rest)[..4] == U32(n);
    }
    if |b| >= 4 {
      FromU32RoundTrip(b[..4]);
      assert b == b[..4] + b[4..];
    }
  }

  lemma TakeFieldOfEncoding(field: seq<byte>, rest: seq<byte>)
    requires |field| <= MAX_FIELD_BYTES
    ensures TakeField(EncodeField(field) + rest) == Ok((field, rest))
  {
    assert EncodeField(field) + rest == U32(|field|) + (field + rest);
    TakeU32Inverse(|field|, [], field + rest);
  }

  lemma EncodingOfTakenField(b: seq<byte>)
    requires TakeField(b).Ok?
    ensures var (field, rest) := TakeField(b).value;
            |field| <= MAX_FIELD_BYTES && b == EncodeField(field) + rest
  {
    var (n, rest) := TakeU32(b).value;
    TakeU32Inverse(n, b, rest);
    assert b == U32(n) + rest[..n] + rest[n..];
  }

  lemma TakeFieldsCons(b: seq<byte>, n: nat, field: seq<byte>, rest: seq<byte>, fields: seq<seq<byte>>, end: seq<byte>)
    requires TakeField(b) == Ok((field, rest)) && TakeFields(rest, n) == Ok((fields, end))
    ensures TakeFields(b, n + 1) == Ok(([field] + fields, end))
  {
  }

  lemma TakeFieldsOfHead(b: seq<byte>, fields: seq<seq<byte>>, tail: seq<byte>, rest: seq<byte>)
    requires fields != [] && |fields[0]| <= MAX_FIELD_BYTES && b == EncodeField(fields[0]) + tail
    requires TakeFields(tail, |fields| - 1) == Ok((fields[1..], rest))
    ensures TakeFields(b, |fields|) == Ok((fields, rest))
  {
    TakeFieldOfEncoding(fields[0], tail);
    TakeFieldsCons(b, |fields| - 1, fields[0], tail, fields[1..], rest);
    assert [fields[0]] + fields[1..] == fields;
  }

  lemma {:induction false} TakeFieldsOfEncoding(fields: seq<seq<byte>>, rest: seq<byte>)
    requires FieldsFit(fields)
    ensures TakeFields(EncodeFields(fields) + rest, |fields|) == Ok((fields, rest))
  {
    if fields == [] {
      assert EncodeFields(fields) + rest == rest;
    } else {
      var b, tail := EncodeFields(fields) + rest, EncodeFields(fields[1..]) + rest;
      assert b == EncodeField(fields[0]) + tail;
      TakeFieldsOfEncoding(fields[1..], rest);
      TakeFieldsOfHead(b, fields, tail, rest);
    }
  }

  lemma {:induction false} EncodingOfTakenFields(b: seq<byte>, n: nat)
    requires TakeFields(b, n).Ok?
    ensures var (fields, rest) := TakeFields(b, n).value;
            |fields| == n && FieldsFit(fields) && b == EncodeFields(fields) + rest
  {
    if n == 0 {
      assert [] + b == b;
    } else {
      EncodingOfTakenField(b);
      var (field, rest) := TakeField(b).value;
      EncodingOfTakenFields(rest, n - 1);
      var (fields, rest') := TakeFields(rest, n - 1).value;
      assert ([field] + fields)[1..] == fields;
      assert b == EncodeField(field) + EncodeFields(fields) + rest';
    }
  }

  /** Every allowed request is recovered from its encoding. */
  lemma ParseOfEncoding(r: Request)
    requires Valid(r)
    ensures Parse(EncodeOpen(r)) == Ok(r)
  {
    var args := EncodeFields(r.args);
    assert EncodeOpen(r) == EncodeField(r.command) + (U32(|r.args|) + args);
    TakeFieldOfEncoding(r.command, U32(|r.args|) + args);
    TakeU32Inverse(|r.args|, [], args);
    assert args + [] == args;
    TakeFieldsOfEncoding(r.args, []);
  }

  lemma EncodingOfParsed(payload: seq<byte>)
    requires Parse(payload).Ok?
    ensures Valid(Parse(payload).value) && payload == EncodeOpen(Parse(payload).value)
  {
    EncodingOfTakenField(payload);
    var (command, rest) := TakeField(payload).value;
    var (argc, rest') := TakeU32(rest).value;
    TakeU32Inverse(argc, rest, rest');
    EncodingOfTakenFields(rest', argc);
    var (args, end) := TakeFields(rest', argc).value;
    assert payload == EncodeField(command) + U32(argc) + EncodeFields(args);
  }

  /** The parser accepts exactly the encodings of allowed requests, and returns
      the request encoded. */
  lemma ParseExactly(payload: seq<byte>, r: Request)
    ensures Parse(payload) == Ok(r) <==> Valid(r) && payload == EncodeOpen(r)
  {
    if Parse(payload) == Ok(r) {
      EncodingOfParsed(payload);
    }
    if Valid(r) && payload == EncodeOpen(r) {
      ParseOfEncoding(r);
    }
  }

  // ----- the parser as the server runs it -----

  /** A cursor over the payload. */
  class PayloadReader {
    const bytes: seq<byte>
    var offset: nat

    ghost predicate Ready()
      reads this
    {
      offset <= |bytes|
    }

    ghost function Rest(): seq<byte>
      reads this
      requires Ready()
    {
      bytes[offset..]
    }

    constructor (payload: seq<byte>)
      ensures Ready() && Rest() == payload && bytes == payload
    {
      bytes := payload;
      offset := 0;
    }

    method Take(length: nat) returns (r: Result<seq<byte>>)
      requires Ready()
      modifies this
      ensures Ready()
      ensures r == if length <= old(|Rest()|) then Ok(old(Rest())[..length]) else Err(Truncated)
      ensures r.Ok? ==> Rest() == old(Rest())[length..]
    {
      var end := offset + length;
      if end > |bytes| {
        return Err(Truncated);
      }
      assert bytes[offset..end] == Rest()[..length];
      r := Ok(bytes[offset..end]);
      offset := end;
    }

    method ReadU32() returns (r: Result<nat>)
      requires Ready()
      modifies this
      ensures Ready()
      ensures r.Ok? ==> TakeU32(old(Rest())) == Ok((r.value, Rest()))
      ensures r.Err? ==> TakeU32(old(Rest())) == Err(r.error)
    {
      var taken := Take(4);
      match taken {
        case Ok(b) => r := Ok(FromU32(b));
        case Err(e) => r := Err(e);
      }
    }

    method Field() returns (r: Result<seq<byte>>)
      requires Ready()
      modifies this
      ensures Ready()
      ensures r.Ok? ==> TakeField(old(Rest())) == Ok((r.value, Rest()))
      ensures r.Err? ==> TakeField(old(Rest())) == Err(r.error)
    {
      var length := ReadU32();
      if length.Err? {
        return Err(length.error);
      }
      if length.value > MAX_FIELD_BYTES {
        return Err(FieldTooLong);
      }
      r := Take(length.value);
    }
  }

  /** One more field, or the error every longer read runs into. */
  lemma {:induction false} TakeFieldsExtend(b: seq<byte>, n: nat, fields: seq<seq<byte>>, rest: seq<byte>, more: nat)
    requires TakeFields(b, n) == Ok((fields, rest)) && n < more
    ensures TakeField(rest).Ok? ==>
              TakeFields(b, n + 1) == Ok((fields + [TakeField(rest).value.0], TakeField(rest).value.1))
    ensures TakeField(rest).Err? ==> TakeFields(b, more) == Err(TakeField(rest).error)
  {
    if n == 0 {
      assert fields == [] && rest == b;
      if TakeField(rest).Ok? {
        var (field, rest') := TakeField(rest).value;
        TakeFieldsCons(b, 0, field, rest', [], rest');
        assert [field] + [] == fields + [field];
      }
    } else {
      var (first, tail) := TakeField(b).value;
      var fields' := TakeFields(tail, n - 1).value.0;
      assert fields == [first] + fields';
      TakeFieldsExtend(tail, n - 1, fields', rest, more - 1);
      if TakeField(rest).Ok? {
        var (field, rest') := TakeField(rest).value;
        TakeFieldsCons(b, n, first, tail, fields' + [field], rest');
        assert [first] + (fields' + [field]) == fields + [field];
      }
    }
  }

  /** Argument count, argument loop, and the check that nothing is left. */
  method ReadArguments(input: PayloadReader, command: seq<byte>) returns (r: Result<Request>)
    requires input.Ready()
    modifies input
    ensures r == ParseArguments(command, old(input.Rest()))
  {
    var argc := input.ReadU32();
    if argc.Err? {
      return Err(argc.error);
    }
    if argc.value > MAX_ARGUMENTS {
      return Err(TooManyArguments);
    }
    ghost var start := input.Rest();
    var args := [];
    for i := 0 to argc.value
      invariant input.Ready()
      invariant TakeFields(start, i) == Ok((args, input.Rest()))
    {
      TakeFieldsExtend(start, i, args, input.Rest(), argc.value);
      var arg := input.Field();
      if arg.Err? {
        return Err(arg.error);
      }
      args := args + [arg.value];
    }
    if input.offset != |input.bytes| {
      return Err(TrailingBytes);
    }
    return Ok(Request(command, args));
  }

  /** Field by field, with every error the strict parser knows. */
  method ParseOpen(payload: seq<byte>) returns (r: Result<Request>)
    ensures r == Parse(payload)
  {
    var input := new PayloadReader(payload);
    var command := input.Field();
    if command.Err? {
      return Err(command.error);
    }
    if !IsUtf8(command.value) {
      return Err(NotUtf8);
    }
    if command.value == [] {
      return Err(EmptyCommand);
    }
    r := ReadArguments(input, command.value);
  }
}
