/** The reading side of task events: JSON objects of at most one member, and the decoders
    of the Node and .NET clients. */
module EventReader {
  import opened TaskModel
  import opened EventText

  datatype Json = Text(text: string) | Number(number: int) | Null

  datatype Object = Empty | Member(key: string, value: Json)

  // ----- JSON text (RFC 8259) -----

  function HexValue(c: char): int {
    var n := c as int;
    if 48 <= n <= 57 then n - 48
    else if 97 <= n <= 102 then n - 87
    else if 65 <= n <= 70 then n - 55
    else -1
  }

  /** The character a four-digit escape names; surrogates stay unread. */
  function FromHex(digits: string): Option<char>
    requires |digits| == 4
  {
    var a, b, c, d := HexValue(digits[0]), HexValue(digits[1]), HexValue(digits[2]), HexValue(digits[3]);
    if a < 0 || b < 0 || c < 0 || d < 0 then None
    else
      var n := ((a * 16 + b) * 16 + c) * 16 + d;
      if 0 <= n < 0xD800 || 0xE000 <= n < 0x1_0000 then Some(n as char) else None
  }

  /** The two-character escapes. */
  function Short(c: char): Option<char> {
    if c == '"' || c == '\\' || c == '/' then Some(c)
    else if c == 'b' then Some(8 as char)
    else if c == 'f' then Some(12 as char)
    else if c == 'n' then Some('\n')
    else if c == 'r' then Some('\r')
    else if c == 't' then Some('\t')
    else None
  }

  /** One character of a string literal, and how much text it takes. */
  function ReadChar(s: string): Option<(char, nat)>
    ensures ReadChar(s).Some? ==> 0 < ReadChar(s).value.1 <= |s|
  {
    if s == "" || s[0] as int < 32 || s[0] == '"' then None
    else if s[0] != '\\' then Some((s[0], 1))
    else if |s| >= 6 && s[1] == 'u' then
      (match FromHex(s[2..6]) case Some(c) => Some((c, 6)) case None => None)
    else if |s| >= 2 then
      (match Short(s[1]) case Some(c) => Some((c, 2)) case None => None)
    else None
  }

  /** A string literal after its opening quote: the value, and what follows. */
  function ReadText(s: string): Option<(string, string)>
    decreases |s|
  {
    if s != "" && s[0] == '"' then Some(("", s[1..]))
    else match ReadChar(s)
      case None => None
      case Some((c, n)) =>
        match ReadText(s[n..])
        case None => None
        case Some((text, rest)) => Some(([c] + text, rest))
  }

  predicate IsDigit(c: char) { '0' <= c <= '9' }

  function ReadDigits(acc: nat, s: string): (int, string)
    decreases |s|
  {
    if s != "" && IsDigit(s[0]) then ReadDigits(10 * acc + (s[0] as int - 48), s[1..]) else (acc, s)
  }

  function ReadValue(s: string): Option<(Json, string)> {
    if s == "" then None
    else if s[0] == '"' then
      (match ReadText(s[1..]) case Some((text, rest)) => Some((Text(text), rest)) case None => None)
    else if "null" <= s then Some((Null, s[4..]))
    else if IsDigit(s[0]) then var (n, rest) := ReadDigits(0, s); Some((Number(n), rest))
    else if s[0] == '-' && |s| > 1 && IsDigit(s[1]) then
      var (n, rest) := ReadDigits(0, s[1..]); Some((Number(-n), rest))
    else None
  }

  function ReadObject(s: string): Option<Object> {
    if s == "{}" then Some(Empty)
    else if "{\"" <= s then
      match ReadText(s[2..])
      case None => None
      case Some((key, rest)) =>
        if rest == "" || rest[0] != ':' then None
        else match ReadValue(rest[1..])
          case None => None
          case Some((value, end)) => if end == "}" then Some(Member(key, value)) else None
    else None
  }

  // ----- the decoders -----

  function Lookup(o: Object, key: string): Option<Json> {
    if o.Member? && o.key == key then Some(o.value) else None
  }

  function TextOf(o: Object, key: string): Option<string> {
    match Lookup(o, key)
    case Some(Text(text)) => Some(text)
    case _ => None
  }

  function AsI32(n: int): Option<I32> {
    if -0x8000_0000 <= n < 0x8000_0000 then Some(n) else None
  }

  /** Node parses the data whatever the name, and insists on `exit_code`. */
  function DecodeNode(name: string, data: string): Option<Event> {
    match ReadObject(data)
    case None => None
    case Some(o) =>
      if name == "started" then Some(Event.Started)
      else if name == "stdout" then
        (match TextOf(o, "data") case Some(text) => Some(Event.Stdout(text)) case None => None)
      else if name == "stderr" then
        (match TextOf(o, "data") case Some(text) => Some(Event.Stderr(text)) case None => None)
      else if name == "finished" then
        (match Lookup(o, "exit_code")
         case Some(Null) => Some(Event.Finished(None))
         case Some(Number(n)) => if AsI32(n).Some? then Some(Event.Finished(AsI32(n))) else None
         case _ => None)
      else if name == "timed_out" then Some(Event.TimedOut)
      else if name == "failed" then
        (match TextOf(o, "error") case Some(text) => Some(Event.Failed(text)) case None => None)
      else None
  }

  /** .NET looks at the data only where it needs it, and takes a missing `exit_code` for
      null. */
  function DecodeNet(name: string, data: string): Option<Event> {
    var parsed := ReadObject(data);
    if name == "started" then Some(Event.Started)
    else if name == "timed_out" then Some(Event.TimedOut)
    else if parsed.None? then None
    else if name == "stdout" then
      (match TextOf(parsed.value, "data") case Some(text) => Some(Event.Stdout(text)) case None => None)
    else if name == "stderr" then
      (match TextOf(parsed.value, "data") case Some(text) => Some(Event.Stderr(text)) case None => None)
    else if name == "finished" then
      (match Lookup(parsed.value, "exit_code")
       case None => Some(Event.Finished(None))
       case Some(Null) => Some(Event.Finished(None))
       case Some(Number(n)) => if AsI32(n).Some? then Some(Event.Finished(AsI32(n))) else None
       case Some(Text(_)) => None)
    else if name == "failed" then
      (match TextOf(parsed.value, "error") case Some(text) => Some(Event.Failed(text)) case None => None)
    else None
  }

  // ----- what was printed reads back -----

  lemma HexBack(n: nat)
    requires n < 16
    ensures HexValue(HexDigit(n)) == n
  {
  }

  lemma ControlBack(c: char)
    requires c as int < 32
    ensures FromHex("00" + [HexDigit(c as int / 16), HexDigit(c as int % 16)]) == Some(c)
  {
    var n := c as int;
    HexBack(n / 16);
    HexBack(n % 16);
    HexBack(0);
    assert HexDigit(0) == '0';
    assert 16 * (n / 16) + n % 16 == n;
  }

  lemma CharBack(c: char, rest: string)
    ensures ReadChar(EscapeChar(c) + rest) == Some((c, |EscapeChar(c)|))
    ensures (EscapeChar(c) + rest)[0] != '"'
    ensures (EscapeChar(c) + rest)[|EscapeChar(c)|..] == rest
  {
    var t := EscapeChar(c);
    var s := t + rest;
    EscapeCharShape(c);
    if |t| == 6 {
      var hex := "00" + [HexDigit(c as int / 16), HexDigit(c as int % 16)];
      assert t == "\\u" + hex && s[2..6] == hex;
      ControlBack(c);
    }
  }

  lemma {:induction false} TextBack(text: string, rest: string)
    ensures ReadText(Escape(text) + ("\"" + rest)) == Some((text, rest))
  {
    if text == "" {
      assert Escape(text) + ("\"" + rest) == "\"" + rest && ("\"" + rest)[1..] == rest;
    } else {
      var first, more := EscapeChar(text[0]), Escape(text[1..]) + ("\"" + rest);
      assert Escape(text) + ("\"" + rest) == first + more;
      CharBack(text[0], more);
      TextBack(text[1..], rest);
      assert [text[0]] + text[1..] == text;
    }
  }

  lemma DigitStep(acc: nat, k: nat, rest: string)
    requires k < 10
    ensures ReadDigits(acc, ["0123456789"[k]] + rest) == ReadDigits(10 * acc + k, rest)
    ensures IsDigit("0123456789"[k])
  {
    var d := "0123456789"[k];
    assert d as int - 48 == k;
    assert ([d] + rest)[1..] == rest;
  }

  lemma {:induction false} DigitsBack(n: nat, rest: string)
    ensures ReadDigits(0, Digits(n) + rest) == ReadDigits(n, rest)
    ensures Digits(n) != "" && IsDigit(Digits(n)[0])
  {
    var d := ["0123456789"[n % 10]];
    DigitStep(n / 10, n % 10, rest);
    if n >= 10 {
      assert Digits(n) + rest == Digits(n / 10) + (d + rest);
      DigitsBack(n / 10, d + rest);
      assert 10 * (n / 10) + n % 10 == n;
    }
  }

  lemma NumberBack(n: int)
    ensures ReadValue(Decimal(n) + "}") == Some((Number(n), "}"))
  {
    var m := if n < 0 then -n else n;
    DigitsBack(m, "}");
    assert ReadDigits(m, "}") == (m, "}");
    DigitsNoControl(m);
    if n < 0 {
      assert (Decimal(n) + "}")[1..] == Digits(m) + "}";
      assert (Decimal(n) + "}")[1] == Digits(m)[0];
    }
    assert (Decimal(n) + "}")[0] != 'n';
  }

  lemma QuoteBack(text: string, rest: string)
    ensures Quote(text) + rest != "" && (Quote(text) + rest)[0] == '"'
    ensures ReadText((Quote(text) + rest)[1..]) == Some((text, rest))
  {
    assert (Quote(text) + rest)[1..] == Escape(text) + ("\"" + rest);
    TextBack(text, rest);
  }

  /** A printed member, given that its value reads back. */
  lemma ObjectBack(key: string, printed: string, value: Json)
    requires ReadValue(printed + "}") == Some((value, "}"))
    ensures ReadObject(ObjectOf(key, printed)) == Some(Member(key, value))
  {
    var s, rest := ObjectOf(key, printed), ":" + (printed + "}");
    assert s[1..] == Quote(key) + rest;
    QuoteBack(key, rest);
    assert s[1] == s[1..][0] == '"' && s[2..] == s[1..][1..];
    assert rest[1..] == printed + "}";
    assert s[0] == '{' && |s| > 2;
  }

  lemma TextValueBack(text: string)
    ensures ReadValue(Quote(text) + "}") == Some((Text(text), "}"))
  {
    QuoteBack(text, "}");
  }

  lemma NullBack()
    ensures ReadValue("null" + "}") == Some((Null, "}"))
  {
    var s := "null" + "}";
    assert s[..4] == "null" && s[4..] == "}";
  }

  lemma TextDataBack(key: string, text: string)
    ensures ReadObject(ObjectOf(key, Quote(text))) == Some(Member(key, Text(text)))
  {
    TextValueBack(text);
    ObjectBack(key, Quote(text), Text(text));
  }

  lemma CodeDataBack(code: Option<I32>)
    ensures ReadObject(ObjectOf("exit_code", if code.None? then "null" else Decimal(code.value))) ==
            Some(Member("exit_code", if code.None? then Null else Number(code.value)))
  {
    if code.None? {
      NullBack();
      ObjectBack("exit_code", "null", Null);
    } else {
      NumberBack(code.value);
      ObjectBack("exit_code", Decimal(code.value), Number(code.value));
    }
  }

  lemma NamesDiffer()
    ensures "started" != "stdout" && "started" != "stderr" && "started" != "finished"
    ensures "started" != "timed_out" && "started" != "failed"
    ensures "stdout" != "stderr" && "stdout" != "finished" && "stdout" != "timed_out" && "stdout" != "failed"
    ensures "stderr" != "finished" && "stderr" != "timed_out" && "stderr" != "failed"
    ensures "finished" != "timed_out" && "finished" != "failed" && "timed_out" != "failed"
  {
    assert "stdout"[3] != "stderr"[3] && "stdout"[0] != "failed"[0] && "stderr"[0] != "failed"[0];
  }

  lemma KeysMatch(key: string, value: Json)
    ensures Lookup(Member(key, value), key) == Some(value)
    ensures value.Text? ==> TextOf(Member(key, value), key) == Some(value.text)
  {
  }

  lemma OutputBack(text: string)
    ensures var data := ObjectOf("data", Quote(text));
            && DecodeNode("stdout", data) == DecodeNet("stdout", data) == Some(Event.Stdout(text))
            && DecodeNode("stderr", data) == DecodeNet("stderr", data) == Some(Event.Stderr(text))
  {
    NamesDiffer();
    TextDataBack("data", text);
    KeysMatch("data", Text(text));
  }

  lemma FailedBack(error: string)
    ensures var data := ObjectOf("error", Quote(error));
            DecodeNode("failed", data) == DecodeNet("failed", data) == Some(Event.Failed(error))
  {
    NamesDiffer();
    TextDataBack("error", error);
    KeysMatch("error", Text(error));
  }

  lemma FinishedBack(code: Option<I32>)
    ensures var data := ObjectOf("exit_code", if code.None? then "null" else Decimal(code.value));
            DecodeNode("finished", data) == DecodeNet("finished", data) == Some(Event.Finished(code))
  {
    NamesDiffer();
    CodeDataBack(code);
    KeysMatch("exit_code", if code.None? then Null else Number(code.value));
  }

  /** Both clients decode a printed event to the event that was published. */
  lemma DecodesBack(e: Event)
    ensures DecodeNode(Name(e), Data(e)) == Some(e)
    ensures DecodeNet(Name(e), Data(e)) == Some(e)
  {
    match e
    case Started => NamesDiffer();
    case Stdout(text) => OutputBack(text);
    case Stderr(text) => OutputBack(text);
    case Finished(code) => FinishedBack(code);
    case TimedOut => NamesDiffer();
    case Failed(error) => FailedBack(error);
  }

  /** Hence name and data determine the event: no two events print alike. */
  lemma EventDetermined(e: Event, f: Event)
    requires Name(e) == Name(f) && Data(e) == Data(f)
    ensures e == f
  {
    DecodesBack(e);
    DecodesBack(f);
  }
}
