/** The printed side of a task event: its name and its JSON data. */
module EventText {
  import opened TaskModel

  function Name(e: Event): string {
    match e
    case Started => "started"
    case Stdout(_) => "stdout"
    case Stderr(_) => "stderr"
    case Finished(_) => "finished"
    case TimedOut => "timed_out"
    case Failed(_) => "failed"
  }

  function HexDigit(n: nat): char
    requires n < 16
  {
    "0123456789abcdef"[n]
  }

  /** How JSON text (RFC 8259, section 7) carries one character of a string. */
  function EscapeChar(c: char): string {
    if c == '"' then "\\\""
    else if c == '\\' then "\\\\"
    else if c as int == 8 then "\\b"
    else if c as int == 9 then "\\t"
    else if c as int == 10 then "\\n"
    else if c as int == 12 then "\\f"
    else if c as int == 13 then "\\r"
    else if c as int < 32 then "\\u00" + [HexDigit(c as int / 16), HexDigit(c as int % 16)]
    else [c]
  }

  function Escape(s: string): string {
    if s == "" then "" else EscapeChar(s[0]) + Escape(s[1..])
  }

  function Digits(n: nat): string {
    if n < 10 then ["0123456789"[n]] else Digits(n / 10) + ["0123456789"[n % 10]]
  }

  function Decimal(n: int): string {
    if n < 0 then "-" + Digits(-n) else Digits(n)
  }

  /** A JSON string literal. */
  function Quote(text: string): string {
    "\"" + Escape(text) + "\""
  }

  /** A JSON object of one member. */
  function ObjectOf(key: string, value: string): string {
    "{" + Quote(key) + ":" + value + "}"
  }

  function Data(e: Event): string {
    match e
    case Started => "{}"
    case Stdout(text) => ObjectOf("data", Quote(text))
    case Stderr(text) => ObjectOf("data", Quote(text))
    case Finished(code) => ObjectOf("exit_code", if code.None? then "null" else Decimal(code.value))
    case TimedOut => "{}"
    case Failed(error) => ObjectOf("error", Quote(error))
  }

  predicate NoControl(s: string) {
    forall i :: 0 <= i < |s| ==> s[i] as int >= 32
  }

  lemma {:induction false} EscapeNoControl(s: string)
    ensures NoControl(Escape(s))
  {
    if s != "" {
      assert NoControl(EscapeChar(s[0]));
      EscapeNoControl(s[1..]);
    }
  }

  lemma {:induction false} DigitsNoControl(n: nat)
    ensures NoControl(Digits(n)) && Digits(n) != "" && Digits(n)[0] != '-' && Digits(n)[0] != 'n'
  {
    if n >= 10 { DigitsNoControl(n / 10); }
  }

  lemma DecimalNoControl(n: int)
    ensures NoControl(Decimal(n)) && Decimal(n) != ""
  {
    DigitsNoControl(if n < 0 then -n else n);
  }

  lemma QuoteNoControl(text: string)
    ensures NoControl(Quote(text))
  {
    EscapeNoControl(text);
  }

  lemma ObjectNoControl(key: string, value: string)
    requires NoControl(value)
    ensures NoControl(ObjectOf(key, value)) && ObjectOf(key, value) != "" && ObjectOf(key, value)[0] == '{'
  {
    QuoteNoControl(key);
  }

  lemma NameIsPlain(e: Event)
    ensures NoControl(Name(e)) && Name(e) != "" && Name(e)[0] != ' '
  {
  }

  /** Whatever a task prints, its event fits on one line and starts with a brace. */
  lemma DataIsOneLine(e: Event)
    ensures NoControl(Data(e)) && Data(e) != "" && Data(e)[0] == '{'
  {
    match e
    case Started =>
    case TimedOut =>
    case Stdout(text) => QuoteNoControl(text); ObjectNoControl("data", Quote(text));
    case Stderr(text) => QuoteNoControl(text); ObjectNoControl("data", Quote(text));
    case Failed(error) => QuoteNoControl(error); ObjectNoControl("error", Quote(error));
    case Finished(code) =>
      if code.None? {
        ObjectNoControl("exit_code", "null");
      } else {
        DecimalNoControl(code.value);
        ObjectNoControl("exit_code", Decimal(code.value));
      }
  }

  lemma EscapeCharShape(c: char)
    ensures var t := EscapeChar(c);
            if t[0] != '\\' then t == [c]
            else if |t| > 1 && t[1] == 'u' then |t| == 6 else |t| == 2
    ensures EscapeChar(c) != ""
  {
  }
}
