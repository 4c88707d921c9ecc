/**
 * The few pieces of Python semantics the notifier leans on: None, truthiness,
 * `all`, `str` of a possibly-None value, `repr` of a string (which is what
 * `str(KeyError(key))` prints), the exceptions the notifier raises, and the
 * try/except outcome of a computation.
 */
module Python {

  datatype Option<T> = None | Some(value: T)

  /** The exceptions that can reach the notifier's top-level handler. */
  datatype Exception =
    | KeyError(key: Option<string>)   // a dict subscript with an absent key (None stands for Python's None)
    | HTTPError                       // `requests.exceptions.HTTPError` raised with no arguments
    | RequestError(text: string)      // any other exception of the `requests` library; `text` is its str()
    | UnboundLocalError(name: string) // a local variable read before it was assigned

  /** `str(e)`: a KeyError prints the repr of its key, a bare HTTPError prints
    * nothing, and the UnboundLocalError text is that of Python 3.11 on. */
  function ExceptionText(e: Exception): (t: string)
    ensures e == HTTPError ==> t == ""
    ensures e == KeyError(None) ==> t == "None"
    ensures e.KeyError? && e.key.Some? ==>
      |t| >= |e.key.value| + 2 && t[0] == t[|t| - 1] && (t[0] == '\'' || t[0] == '"')
    ensures e.RequestError? ==> t == e.text
  {
    match e
    case KeyError(None) => "None"
    case KeyError(Some(k)) => Repr(k)
    case HTTPError => ""
    case RequestError(text) => text
    case UnboundLocalError(name) =>
      "cannot access local variable '" + name + "' where it is not associated with a value"
  }

  /** The text of a KeyError names its key: different keys, None included,
    * print differently. */
  lemma KeyErrorTextInjective(k1: Option<string>, k2: Option<string>)
    ensures ExceptionText(KeyError(k1)) == ExceptionText(KeyError(k2)) ==> k1 == k2
  {
    if ExceptionText(KeyError(k1)) == ExceptionText(KeyError(k2)) {
      match (k1, k2)
      case (None, None) =>
      case (Some(a), Some(b)) => ReprInjective(a, b);
      case _ =>
    }
  }

  /** A computation that either returns a value or raises. */
  datatype Outcome<T> = Ok(value: T) | Raise(exc: Exception)

  /** `str(x)` for a value that is either a string or None. */
  function Str(x: Option<string>): (r: string)
    ensures x.Some? ==> r == x.value
    ensures x.None? ==> r == "None"
  {
    match x
    case None => "None"
    case Some(s) => s
  }

  /** Truthiness of a value that is a string or None: None and "" are false. */
  predicate StrTruthy(x: Option<string>) {
    x.Some? && x.value != ""
  }

  /** Truthiness of a value that is an int or None: None and 0 are false. */
  predicate IntTruthy(x: Option<int>) {
    x.Some? && x.value != 0
  }

  /** Python's `a or b` where `a` is an int or None and `b` an int. */
  function IntOr(a: Option<int>, b: int): (r: int)
    ensures IntTruthy(a) ==> r == a.value
    ensures !IntTruthy(a) ==> r == b
  {
    if IntTruthy(a) then a.value else b
  }

  /** Python's built-in `all` over a list of truth values. */
  function All(xs: seq<bool>): (b: bool) {
    if xs == [] then true else xs[0] && All(xs[1..])
  }

  lemma {:induction false} AllIffEvery(xs: seq<bool>)
    ensures All(xs) <==> forall i :: 0 <= i < |xs| ==> xs[i]
  {
    if xs != [] {
      AllIffEvery(xs[1..]);
      assert forall i :: 1 <= i < |xs| ==> xs[i] == xs[1..][i - 1];
    }
  }

  // ---------------------------------------------------------------------------
  // repr() of a string
  // ---------------------------------------------------------------------------

  /** The quote `repr` puts around `s`: double quotes only when `s` holds a
    * single quote and no double quote. */
  function QuoteFor(s: string): (q: char)
    ensures q == '\'' || q == '"'
    ensures q == '"' <==> '\'' in s && '"' !in s
  {
    if '\'' in s && '"' !in s then '"' else '\''
  }

  /** Characters below U+0100 that `repr` writes as `\xNN`; the characters
    * above U+00FF are all treated as printable (see README). */
  predicate HexEscaped(c: char) {
    (c < ' ' && c != '\t' && c != '\n' && c != '\r')
    || ('\U{7F}' <= c <= '\U{A0}')
    || c == '\U{AD}'
  }

  function HexDigit(n: nat): (c: char)
    requires n < 16
  {
    if n < 10 then ('0' as int + n) as char else ('a' as int + n - 10) as char
  }

  function HexValue(c: char): (v: Option<nat>) {
    if '0' <= c <= '9' then Some(c as int - '0' as int)
    else if 'a' <= c <= 'f' then Some(c as int - 'a' as int + 10)
    else None
  }

  lemma HexValueOfDigit(n: nat)
    requires n < 16
    ensures HexValue(HexDigit(n)) == Some(n)
  {
  }

  /** How `repr` writes one character of the string when it quotes with `q`. */
  function EscapeChar(c: char, q: char): (r: string)
    ensures 1 <= |r| <= 4
  {
    if c == '\\' then "\\\\"
    else if c == q then ['\\', q]
    else if c == '\n' then "\\n"
    else if c == '\r' then "\\r"
    else if c == '\t' then "\\t"
    else if HexEscaped(c) then ['\\', 'x', HexDigit(c as int / 16), HexDigit(c as int % 16)]
    else [c]
  }

  function Escape(s: string, q: char): (r: string)
    ensures |r| >= |s|
  {
    if s == [] then [] else EscapeChar(s[0], q) + Escape(s[1..], q)
  }

  /** `repr(s)` for a string `s`. */
  function Repr(s: string): (r: string)
    ensures |r| >= |s| + 2
    ensures r[0] == r[|r| - 1] == QuoteFor(s)
    ensures r[0] == '"' <==> '\'' in s && '"' !in s
  {
    [QuoteFor(s)] + Escape(s, QuoteFor(s)) + [QuoteFor(s)]
  }

  /** A character `repr` copies as it is when quoting with `q`. */
  predicate Verbatim(c: char, q: char) {
    c != '\\' && c != q && c != '\n' && c != '\r' && c != '\t' && !HexEscaped(c)
  }

  lemma {:induction false} EscapeVerbatim(s: string, q: char)
    requires forall i :: 0 <= i < |s| ==> Verbatim(s[i], q)
    ensures Escape(s, q) == s
  {
    if s != [] {
      EscapeVerbatim(s[1..], q);
      assert [s[0]] + s[1..] == s;
    }
  }

  /** A string without quotes, backslashes or control characters prints
    * between single quotes, unchanged. */
  lemma ReprVerbatim(s: string)
    requires forall i :: 0 <= i < |s| ==> Verbatim(s[i], '\'')
    ensures Repr(s) == "'" + s + "'"
  {
    EscapeVerbatim(s, '\'');
  }

  /** Reads back the body of a string literal quoted with `q`; the inverse of
    * `Escape`. */
  function Unescape(t: string, q: char): (r: Option<string>)
    decreases |t|
  {
    if t == [] then Some([])
    else if t[0] == q then None
    else if t[0] != '\\' then
      match Unescape(t[1..], q)
      case None => None
      case Some(rest) => Some([t[0]] + rest)
    else if |t| < 2 then None
    else
      var e := t[1];
      if e == 'x' then
        if |t| < 4 then None
        else match (HexValue(t[2]), HexValue(t[3]), Unescape(t[4..], q))
          case (Some(hi), Some(lo), Some(rest)) => Some([(hi * 16 + lo) as char] + rest)
          case _ => None
      else
        var c := if e == '\\' then Some('\\')
                 else if e == q then Some(q)
                 else if e == 'n' then Some('\n')
                 else if e == 'r' then Some('\r')
                 else if e == 't' then Some('\t')
                 else None;
        match (c, Unescape(t[2..], q))
        case (Some(c), Some(rest)) => Some([c] + rest)
        case _ => None
  }

  /** Reads back a string literal as `repr` writes it. */
  function Unrepr(r: string): (s: Option<string>) {
    if |r| < 2 || r[0] != r[|r| - 1] || (r[0] != '\'' && r[0] != '"') then None
    else Unescape(r[1..|r| - 1], r[0])
  }

  lemma UnescapeChar(c: char, q: char, rest: string)
    requires q == '\'' || q == '"'
    ensures Unescape(EscapeChar(c, q) + rest, q) ==
            match Unescape(rest, q)
            case None => None
            case Some(tail) => Some([c] + tail)
  {
    var t := EscapeChar(c, q) + rest;
    if c == '\\' || c == q || c == '\n' || c == '\r' || c == '\t' {
      assert t[2..] == rest;
    } else if HexEscaped(c) {
      assert t[4..] == rest;
      HexValueOfDigit(c as int / 16);
      HexValueOfDigit(c as int % 16);
    } else {
      assert t[1..] == rest;
    }
  }

  lemma {:induction false} UnescapeEscape(s: string, q: char)
    requires q == '\'' || q == '"'
    ensures Unescape(Escape(s, q), q) == Some(s)
  {
    if s == [] {
    } else {
      UnescapeEscape(s[1..], q);
      UnescapeChar(s[0], q, Escape(s[1..], q));
      assert [s[0]] + s[1..] == s;
    }
  }

  /** `repr` can be read back, so it loses nothing. */
  lemma UnreprRepr(s: string)
    ensures Unrepr(Repr(s)) == Some(s)
  {
    var r := Repr(s);
    assert r[1..|r| - 1] == Escape(s, QuoteFor(s));
    UnescapeEscape(s, QuoteFor(s));
  }

  /** Different strings have different reprs. */
  lemma ReprInjective(a: string, b: string)
    ensures Repr(a) == Repr(b) ==> a == b
  {
    UnreprRepr(a);
    UnreprRepr(b);
  }
}
