/** The signalling wire format: a frame is a header line ending in a newline followed by an
    opaque payload; handles travel as decimal numbers. The string built-ins the relay relies on
    (`trim`, `parseInt`, template rendering of numbers) are written out with their JavaScript
    meaning, on strings of code points rather than UTF-16 code units. */
module Wire {

  datatype Option<T> = None | Some(value: T)

  // ---------------------------------------------------------------------------------------
  // String.prototype.trim
  // ---------------------------------------------------------------------------------------

  /** The ECMAScript WhiteSpace and LineTerminator code points, which `trim` removes. */
  predicate IsSpace(c: char) {
    || c == '\t' || c == '\n' || c == '\U{B}' || c == '\U{C}' || c == '\r' || c == ' '
    || c == '\U{A0}' || c == '\U{1680}' || ('\U{2000}' <= c <= '\U{200A}')
    || c == '\U{2028}' || c == '\U{2029}' || c == '\U{202F}' || c == '\U{205F}'
    || c == '\U{3000}' || c == '\U{FEFF}'
  }

  /** Drops the leading white space: the result is a suffix of `s`, everything dropped is
      white space, and what is kept does not start with white space. */
  function TrimStart(s: string): (r: string)
    ensures |r| <= |s| && r == s[|s| - |r|..]
    ensures forall i :: 0 <= i < |s| - |r| ==> IsSpace(s[i])
    ensures r == [] || !IsSpace(r[0])
  {
    if s != [] && IsSpace(s[0]) then TrimStart(s[1..]) else s
  }

  /** Drops the trailing white space: the result is a prefix of `s`, everything dropped is
      white space, and what is kept does not end with white space. */
  function TrimEnd(s: string): (r: string)
    ensures |r| <= |s| && r == s[..|r|]
    ensures forall i :: |r| <= i < |s| ==> IsSpace(s[i])
    ensures r == [] || !IsSpace(r[|r| - 1])
  {
    if s != [] && IsSpace(s[|s| - 1]) then TrimEnd(s[..|s| - 1]) else s
  }

  /** `String.prototype.trim`: the result is a prefix of what `TrimStart` keeps of `s`, so a
      contiguous piece of `s`, with no white space at either end. */
  function Trim(s: string): (r: string)
    ensures IsTrimmed(r)
    ensures |r| <= |TrimStart(s)| && r == TrimStart(s)[..|r|]
  {
    TrimEnd(TrimStart(s))
  }

  /** A string that `trim` leaves alone: no white space at either end. */
  predicate IsTrimmed(s: string) {
    s == [] || (!IsSpace(s[0]) && !IsSpace(s[|s| - 1]))
  }

  lemma TrimKeepsTrimmed(s: string)
    requires IsTrimmed(s)
    ensures Trim(s) == s
  {
    assert s != [] ==> !IsSpace(s[0]) && !IsSpace(s[|s| - 1]);
    assert TrimStart(s) == s;
  }

  // ---------------------------------------------------------------------------------------
  // Decimal rendering of numbers (`${n}` in a template literal)
  // ---------------------------------------------------------------------------------------

  predicate IsDigit(c: char) {
    '0' <= c <= '9'
  }

  function DigitChar(d: nat): (c: char)
    requires d < 10
    ensures IsDigit(c) && c as int - '0' as int == d
  {
    ('0' as int + d) as char
  }

  /** The decimal numeral of `n`: digits only, at least one, and no leading zero. */
  function NatToDecimal(n: nat): (s: string)
    ensures s != [] && forall i :: 0 <= i < |s| ==> IsDigit(s[i])
    ensures s[0] == '0' ==> n == 0 && |s| == 1
  {
    if n < 10 then [DigitChar(n)] else NatToDecimal(n / 10) + [DigitChar(n % 10)]
  }

  // ---------------------------------------------------------------------------------------
  // parseInt with no radix argument
  // ---------------------------------------------------------------------------------------

  /** The value of `c` as a digit in base 10 or 16, if it is one. */
  function DigitValue(c: char, radix: nat): (d: Option<nat>)
    requires radix == 10 || radix == 16
    ensures d.Some? ==> d.value < radix
    ensures IsDigit(c) ==> d == Some(c as int - '0' as int)
  {
    if '0' <= c <= '9' then Some(c as int - '0' as int)
    else if radix == 16 && 'a' <= c <= 'f' then Some(c as int - 'a' as int + 10)
    else if radix == 16 && 'A' <= c <= 'F' then Some(c as int - 'A' as int + 10)
    else None
  }

  /** Where the run of digits of the radix that starts at index `i` of `s` ends. */
  function RunEnd(s: string, radix: nat, i: nat): (e: nat)
    requires radix == 10 || radix == 16
    requires i <= |s|
    ensures i <= e <= |s|
    decreases |s| - i
  {
    if i < |s| && DigitValue(s[i], radix).Some? then RunEnd(s, radix, i + 1) else i
  }

  /** The number denoted by the first `k` characters of `s`, most significant digit first.
      It is only read on runs of digits; a character that is no digit would count as 0. */
  function PrefixValue(s: string, radix: nat, k: nat): nat
    requires radix == 10 || radix == 16
    requires k <= |s|
  {
    if k == 0 then 0
    else
      var d := DigitValue(s[k - 1], radix);
      PrefixValue(s, radix, k - 1) * radix + (if d.Some? then d.value else 0)
  }

  /** The number denoted by the longest run of digits of the radix that starts `s`, or None
      when `s` does not start with such a digit. */
  function LeadingNumber(s: string, radix: nat): (r: Option<nat>)
    requires radix == 10 || radix == 16
    ensures r.Some? <==> s != [] && DigitValue(s[0], radix).Some?
  {
    var k := RunEnd(s, radix, 0);
    if k == 0 then None else Some(PrefixValue(s, radix, k))
  }

  /** The unsigned part of `parseInt`: a `0x`/`0X` prefix switches to base 16. */
  function UnsignedValue(u: string): Option<nat> {
    if |u| >= 2 && u[0] == '0' && (u[1] == 'x' || u[1] == 'X') then LeadingNumber(u[2..], 16)
    else LeadingNumber(u, 10)
  }

  /** `parseInt(s)`: leading white space is skipped, one sign is read, a `0x`/`0X` prefix
      switches to base 16, and the longest run of digits that follows is the number; with no
      digit the result is NaN, written here as None. */
  function ParseInt(s: string): (r: Option<int>)
    ensures TrimStart(s) == [] ==> r.None?
    ensures r.Some? && r.value < 0 ==> TrimStart(s)[0] == '-'
    ensures var t := TrimStart(s);
      t != [] && IsDigit(t[0]) && !(|t| >= 2 && t[0] == '0' && (t[1] == 'x' || t[1] == 'X'))
      ==> r.Some?
  {
    var t := TrimStart(s);
    var negative := t != [] && t[0] == '-';
    var u := if t != [] && (t[0] == '-' || t[0] == '+') then t[1..] else t;
    match UnsignedValue(u)
    case None => None
    case Some(v) =>
      var n: int := v;
      Some(if negative then -n else n)
  }

  /** The scan stops exactly at the end of the longest run of digits from `i`. */
  lemma {:induction false} RunEndIsLongest(s: string, radix: nat, i: nat)
    requires radix == 10 || radix == 16
    requires i <= |s|
    ensures forall j :: i <= j < RunEnd(s, radix, i) ==> DigitValue(s[j], radix).Some?
    ensures RunEnd(s, radix, i) < |s| ==> DigitValue(s[RunEnd(s, radix, i)], radix).None?
    decreases |s| - i
  {
    if i < |s| && DigitValue(s[i], radix).Some? {
      RunEndIsLongest(s, radix, i + 1);
    }
  }

  /** Characters appended after the first `k` do not change their value. */
  lemma {:induction false} PrefixValueExtends(s: string, t: string, radix: nat, k: nat)
    requires radix == 10 || radix == 16
    requires k <= |s|
    ensures PrefixValue(s + t, radix, k) == PrefixValue(s, radix, k)
  {
    if k > 0 {
      assert (s + t)[k - 1] == s[k - 1];
      PrefixValueExtends(s, t, radix, k - 1);
    }
  }

  /** The digits of a rendered number denote that number. */
  lemma {:induction false} DecimalValue(n: nat)
    ensures PrefixValue(NatToDecimal(n), 10, |NatToDecimal(n)|) == n
  {
    if n >= 10 {
      var p := NatToDecimal(n / 10);
      var c := DigitChar(n % 10);
      assert NatToDecimal(n) == p + [c];
      PrefixValueExtends(p, [c], 10, |p|);
      DecimalValue(n / 10);
    }
  }

  /** A run of digits extends to the end of the string. */
  lemma {:induction false} RunEndOfDigits(s: string, i: nat)
    requires i <= |s|
    requires forall j :: 0 <= j < |s| ==> IsDigit(s[j])
    ensures RunEnd(s, 10, i) == |s|
    decreases |s| - i
  {
    if i < |s| {
      RunEndOfDigits(s, i + 1);
    }
  }

  /** Reading back a rendered number gives the number. */
  lemma ParseDecimal(n: nat)
    ensures ParseInt(NatToDecimal(n)) == Some(n)
  {
    var s := NatToDecimal(n);
    assert !IsSpace(s[0]);
    assert TrimStart(s) == s;
    RunEndOfDigits(s, 0);
    DecimalValue(n);
  }

  // ---------------------------------------------------------------------------------------
  // Frames
  // ---------------------------------------------------------------------------------------

  /** Index of the first newline of `s`, or `|s|` when there is none (`indexOf("\n")`). */
  function NewlineAt(s: string): (i: nat)
    ensures i <= |s|
    ensures forall k :: 0 <= k < i ==> s[k] != '\n'
    ensures i < |s| ==> s[i] == '\n'
  {
    if s == [] || s[0] == '\n' then 0 else 1 + NewlineAt(s[1..])
  }

  /** A frame split at its first newline: the header line, and the payload, which keeps the
      newline as its first character. */
  datatype Frame = Frame(header: string, payload: string)

  function SplitFrame(msg: string): (r: Option<Frame>)
    ensures r.None? <==> '\n' !in msg
    ensures r.Some? ==>
      && msg == r.value.header + r.value.payload
      && '\n' !in r.value.header
      && r.value.payload != [] && r.value.payload[0] == '\n'
  {
    var i := NewlineAt(msg);
    if i == |msg| then None else Some(Frame(msg[..i], msg[i..]))
  }

  /** Splitting undoes concatenation when the header has no newline and the payload starts
      with one. */
  lemma SplitFrameJoin(header: string, payload: string)
    requires '\n' !in header && payload != [] && payload[0] == '\n'
    ensures SplitFrame(header + payload) == Some(Frame(header, payload))
  {
    var msg := header + payload;
    var i := NewlineAt(msg);
    assert msg[|header|] == '\n';
    assert forall k :: 0 <= k < |header| ==> msg[k] == header[k];
    assert i == |header|;
    assert msg[..i] == header && msg[i..] == payload;
  }

  /** What the server reads a frame as, before looking at any state. */
  datatype Request =
    | Malformed                                   // no newline, or a header under 3 characters
    | JoinRequest(name: string)                   // `J: <name>`; the name is trimmed
    | SealRequest                                 // `S: ...`
    | Addressed(header: string, dest: Option<int>, payload: string)
                                                  // any other header: parseInt of its argument

  /** How `parseMsg` reads a frame: split at the first newline; a `J: ` header carries the
      trimmed name to join; any other header of 3 or more characters that is not `S: ` is an
      addressed frame made of its header line and the payload that starts at that newline. */
  function Classify(msg: string): (r: Request)
    ensures r.JoinRequest? ==> IsTrimmed(r.name)
    ensures r.Addressed? ==>
      && msg == r.header + r.payload && |r.header| == NewlineAt(msg) >= 3
      && r.header[..3] != "J: " && r.header[..3] != "S: "
  {
    match SplitFrame(msg)
    case None => Malformed
    case Some(Frame(header, payload)) =>
      if |header| < 3 then Malformed
      else if header[..3] == "J: " then JoinRequest(Trim(header[3..]))
      else if header[..3] == "S: " then SealRequest
      else Addressed(header, ParseInt(Trim(header[3..])), payload)
  }

  /** A frame is rejected outright exactly when it has no newline or its first newline comes
      before position 3. */
  lemma MalformedIff(msg: string)
    ensures Classify(msg).Malformed? <==> NewlineAt(msg) == |msg| || NewlineAt(msg) < 3
  {
    var i := NewlineAt(msg);
    if i < |msg| {
      assert msg[i] == '\n';
      var header := SplitFrame(msg).value.header;
      assert header == msg[..i];
      assert Classify(msg).Malformed? <==> |header| < 3;
    } else {
      assert '\n' !in msg by {
        forall k | 0 <= k < |msg| ensures msg[k] != '\n' { }
      }
      assert SplitFrame(msg).None?;
    }
  }

  // ---------------------------------------------------------------------------------------
  // Frames the server writes
  // ---------------------------------------------------------------------------------------

  /** `I: <h>`, `N: <h>` or `D: <h>`: a one-letter code with a handle and an empty payload. */
  function Notice(code: char, handle: nat): string {
    [code] + ": " + NatToDecimal(handle) + "\n"
  }

  /** `J: <name>`: confirmation of a join. */
  function JoinedNotice(name: string): string {
    "J: " + name + "\n"
  }

  const SEAL_NOTICE: string := "S: \n"

  /** A relayed signal: the code letter, the sender's handle and the payload untouched. */
  function Relayed(code: char, handle: nat, payload: string): string {
    [code] + ": " + NatToDecimal(handle) + payload
  }

  predicate IsRelayCode(header: string) {
    |header| >= 3 && (header[..3] == "O: " || header[..3] == "A: " || header[..3] == "C: ")
  }

  /** A `J: <name>` frame is read back as a join request for the same name, whatever follows
      its header line, when the name has no newline and no white space at its ends. */
  lemma JoinRoundTrip(name: string, rest: string)
    requires '\n' !in name && IsTrimmed(name)
    ensures Classify(JoinedNotice(name) + rest) == JoinRequest(name)
  {
    var header := "J: " + name;
    assert JoinedNotice(name) + rest == header + ("\n" + rest);
    SplitFrameJoin(header, "\n" + rest);
    assert header[3..] == name;
    TrimKeepsTrimmed(name);
  }

  /** A rendered number has no newline and no white space at its ends. */
  lemma DecimalIsPlain(n: nat)
    ensures '\n' !in NatToDecimal(n) && IsTrimmed(NatToDecimal(n))
  {
    var d := NatToDecimal(n);
    assert IsDigit(d[0]) && IsDigit(d[|d| - 1]);
  }

  /** A header `<code>: <d>` has no newline when `d` has none. */
  lemma CodeHeaderPlain(code: char, d: string)
    ensures code != '\n' && '\n' !in d ==> '\n' !in [code] + ": " + d
  {
    var header := [code] + ": " + d;
    if code != '\n' && '\n' !in d {
      forall k | 0 <= k < |header| ensures header[k] != '\n' {
        if k >= 3 { assert header[k] == d[k - 3]; }
      }
    }
  }

  /** A frame `<code>: <h>` followed by a newline is read back with the handle `h` and the
      payload byte for byte; this covers both a signal addressed by a client and the frame the
      server relays for it. */
  lemma AddressedRoundTrip(code: char, h: nat, payload: string)
    requires 'A' <= code <= 'Z' && code != 'J' && code != 'S'
    requires payload != [] && payload[0] == '\n'
    ensures Classify(Relayed(code, h, payload))
         == Addressed([code] + ": " + NatToDecimal(h), Some(h), payload)
  {
    var d := NatToDecimal(h);
    var header := [code] + ": " + d;
    assert Relayed(code, h, payload) == header + payload;
    DecimalIsPlain(h);
    CodeHeaderPlain(code, d);
    SplitFrameJoin(header, payload);
    assert header[..3] == [code] + ": " && header[3..] == d;
    TrimKeepsTrimmed(d);
    ParseDecimal(h);
  }

  /** A notice carries its handle: the receiving client parses it back. */
  lemma NoticeRoundTrip(code: char, h: nat)
    requires 'A' <= code <= 'Z' && code != 'J' && code != 'S'
    ensures Classify(Notice(code, h)) == Addressed([code] + ": " + NatToDecimal(h), Some(h), "\n")
  {
    assert Notice(code, h) == Relayed(code, h, "\n");
    AddressedRoundTrip(code, h, "\n");
  }

  // ---------------------------------------------------------------------------------------
  // Generated lobby secrets
  // ---------------------------------------------------------------------------------------

  predicate IsAlnum(c: char) {
    ('A' <= c <= 'Z') || ('a' <= c <= 'z') || ('0' <= c <= '9')
  }

  /** A secret as the server draws one: 16 characters of `A-Z a-z 0-9`. */
  predicate IsSecret(s: string) {
    |s| == 16 && forall i :: 0 <= i < |s| ==> IsAlnum(s[i])
  }

  /** A generated secret survives the round trip through a `J:` frame. */
  lemma SecretRoundTrip(s: string, rest: string)
    requires IsSecret(s)
    ensures Classify(JoinedNotice(s) + rest) == JoinRequest(s)
  {
    assert '\n' !in s by {
      forall k | 0 <= k < |s| ensures s[k] != '\n' { assert IsAlnum(s[k]); }
    }
    assert IsAlnum(s[0]) && IsAlnum(s[15]);
    JoinRoundTrip(s, rest);
  }
}
