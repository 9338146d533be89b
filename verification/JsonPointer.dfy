/** RFC 6901 pointers as the repository writes and reads them: two sequential string replacements. */
module JsonPointer {
  import opened Ordering

  // ---------- Python string operations ----------

  /** `s.startswith(p)`. */
  predicate StartsWith(s: string, p: string) {
    p <= s
  }

  /** `s.replace(pattern, with)`: non-overlapping occurrences, left to right. */
  function Replace(s: string, pattern: string, with: string): string
    requires pattern != ""
  {
    if s == "" then ""
    else if pattern <= s then with + Replace(s[|pattern|..], pattern, with)
    else [s[0]] + Replace(s[1..], pattern, with)
  }

  /** `s.split(sep)` for a one-character separator: never empty. */
  function Split(s: string, sep: char): (parts: seq<string>)
    ensures |parts| > 0
    ensures forall p :: p in parts ==> sep !in p
  {
    if s == "" then [""]
    else
      var rest := Split(s[1..], sep);
      if s[0] == sep then [""] + rest else [[s[0]] + rest[0]] + rest[1..]
  }

  /** `sep.join(parts)`. */
  function Join(parts: seq<string>, sep: char): string
    requires |parts| > 0
  {
    if |parts| == 1 then parts[0] else parts[0] + [sep] + Join(parts[1..], sep)
  }

  lemma {:induction false} JoinSplit(s: string, sep: char)
    ensures Join(Split(s, sep), sep) == s
  {
    if s == "" {
    } else {
      JoinSplit(s[1..], sep);
      var rest := Split(s[1..], sep);
      if s[0] == sep {
        assert ([""] + rest)[1..] == rest;
      } else {
        var parts := [[s[0]] + rest[0]] + rest[1..];
        assert parts[1..] == rest[1..];
        if |rest| > 1 {
          assert Join(rest, sep) == rest[0] + [sep] + Join(rest[1..], sep);
        }
      }
    }
  }

  lemma {:induction false} SplitJoin(parts: seq<string>, sep: char)
    requires |parts| > 0
    requires forall p :: p in parts ==> sep !in p
    ensures Split(Join(parts, sep), sep) == parts
    decreases |parts|, |parts[0]|
  {
    var first := parts[0];
    if first == "" {
      if |parts| > 1 {
        SplitJoin(parts[1..], sep);
        assert Join(parts, sep) == [sep] + Join(parts[1..], sep);
        assert Join(parts, sep)[1..] == Join(parts[1..], sep);
      }
      assert parts == [""] + parts[1..];
    } else {
      var shorter := [first[1..]] + parts[1..];
      assert forall c :: c in first[1..] ==> c in first;
      assert first in parts;
      assert forall p :: p in shorter ==> p == first[1..] || p in parts;
      SplitJoin(shorter, sep);
      assert shorter[1..] == parts[1..];
      assert first[0] in first;
      assert Join(parts, sep)[0] == first[0];
      assert Join(parts, sep)[1..] == Join(shorter, sep);
      assert first == [first[0]] + first[1..];
    }
  }

  // ---------- Escaping ----------

  /** The writer's two passes: `~` first, then `/`. */
  function Escape(token: string): string {
    Replace(Replace(token, "~", "~0"), "/", "~1")
  }

  /** The reader's two passes: `~1` first, then `~0`. */
  function Unescape(raw: string): string {
    Replace(Replace(raw, "~1", "/"), "~0", "~")
  }

  /** Reference decoder of RFC 6901 section 4: one left-to-right pass; a stray `~` stands for itself. */
  function DecodeOnce(raw: string): string {
    if raw == "" then ""
    else if |raw| >= 2 && raw[0] == '~' && raw[1] == '1' then "/" + DecodeOnce(raw[2..])
    else if |raw| >= 2 && raw[0] == '~' && raw[1] == '0' then "~" + DecodeOnce(raw[2..])
    else [raw[0]] + DecodeOnce(raw[1..])
  }

  /** Reference encoder: one pass over the characters. */
  function EncodeOnce(token: string): string {
    if token == "" then ""
    else (if token[0] == '~' then "~0" else if token[0] == '/' then "~1" else [token[0]])
         + EncodeOnce(token[1..])
  }

  /** Syntax of RFC 6901 section 3: every `~` is followed by `0` or `1`. */
  predicate WellEscaped(raw: string) {
    raw == ""
    || (if raw[0] == '~' then |raw| >= 2 && raw[1] in {'0', '1'} && WellEscaped(raw[2..])
        else WellEscaped(raw[1..]))
  }

  lemma ReplaceSkips(c: char, rest: string, pattern: string, with: string)
    requires pattern != ""
    requires pattern[0] != c || (|pattern| == 2 && (rest == "" || rest[0] != pattern[1]))
    ensures Replace([c] + rest, pattern, with) == [c] + Replace(rest, pattern, with)
  {
    var s := [c] + rest;
    assert s[0] == c && (rest != "" ==> s[1] == rest[0]);
    assert ([c] + rest)[1..] == rest;
  }

  lemma ReplaceHits(pattern: string, rest: string, with: string)
    requires pattern != ""
    ensures Replace(pattern + rest, pattern, with) == with + Replace(rest, pattern, with)
  {
    assert (pattern + rest)[|pattern|..] == rest;
  }

  lemma {:induction false} UnescapeIsOnePass(raw: string)
    ensures Unescape(raw) == DecodeOnce(raw)
  {
    if raw == "" {
    } else if |raw| >= 2 && raw[0] == '~' && raw[1] in {'0', '1'} {
      var rest := raw[2..];
      UnescapeIsOnePass(rest);
      var first := Replace(rest, "~1", "/");
      if raw[1] == '1' {
        assert raw == "~1" + rest;
        ReplaceHits("~1", rest, "/");
        ReplaceSkips('/', first, "~0", "~");
      } else {
        assert raw == "~" + ("0" + rest);
        ReplaceSkips('~', "0" + rest, "~1", "/");
        ReplaceSkips('0', rest, "~1", "/");
        assert "~" + ("0" + first) == "~0" + first;
        ReplaceHits("~0", first, "~");
      }
    } else {
      UnescapeIsOnePass(raw[1..]);
      var first := Replace(raw[1..], "~1", "/");
      assert raw == [raw[0]] + raw[1..];
      ReplaceSkips(raw[0], raw[1..], "~1", "/");
      ReplaceSkips(raw[0], first, "~0", "~");
    }
  }

  lemma {:induction false} EscapeIsOnePass(token: string)
    ensures Escape(token) == EncodeOnce(token)
  {
    if token == "" {
    } else {
      var rest := token[1..];
      EscapeIsOnePass(rest);
      var first := Replace(rest, "~", "~0");
      assert token == [token[0]] + rest;
      if token[0] == '~' {
        ReplaceHits("~", rest, "~0");
        assert "~0" + first == "~" + ("0" + first);
        ReplaceSkips('~', "0" + first, "/", "~1");
        ReplaceSkips('0', first, "/", "~1");
      } else {
        ReplaceSkips(token[0], rest, "~", "~0");
        if token[0] == '/' {
          ReplaceHits("/", first, "~1");
        } else {
          ReplaceSkips(token[0], first, "/", "~1");
        }
      }
    }
  }

  lemma DecodePair(digit: char, rest: string)
    requires digit in {'0', '1'}
    ensures DecodeOnce(['~', digit] + rest) == (if digit == '1' then "/" else "~") + DecodeOnce(rest)
    ensures WellEscaped(['~', digit] + rest) <==> WellEscaped(rest)
  {
    assert (['~', digit] + rest)[2..] == rest;
  }

  lemma {:induction false} DecodeEncode(token: string)
    ensures DecodeOnce(EncodeOnce(token)) == token
    ensures WellEscaped(EncodeOnce(token)) && '/' !in EncodeOnce(token)
  {
    if token == "" {
    } else {
      DecodeEncode(token[1..]);
      var rest := EncodeOnce(token[1..]);
      assert token == [token[0]] + token[1..];
      if token[0] == '~' {
        DecodePair('0', rest);
        assert EncodeOnce(token) == ['~', '0'] + rest;
      } else if token[0] == '/' {
        DecodePair('1', rest);
        assert EncodeOnce(token) == ['~', '1'] + rest;
      } else {
        assert ([token[0]] + rest)[1..] == rest;
      }
    }
  }

  lemma {:induction false} EncodeDecode(raw: string)
    requires WellEscaped(raw) && '/' !in raw
    ensures EncodeOnce(DecodeOnce(raw)) == raw
  {
    if raw == "" {
    } else {
      if raw[0] == '~' {
        EncodeDecode(raw[2..]);
        assert raw == raw[..2] + raw[2..];
        var rest := DecodeOnce(raw[2..]);
        assert ("~" + rest)[1..] == rest && ("/" + rest)[1..] == rest;
      } else {
        EncodeDecode(raw[1..]);
        var rest := DecodeOnce(raw[1..]);
        assert ([raw[0]] + rest)[1..] == rest;
        assert raw == [raw[0]] + raw[1..];
      }
    }
  }

  /** Writing a token and reading it back is the identity, for every token. */
  lemma EscapeRoundTrip(token: string)
    ensures Unescape(Escape(token)) == token
    ensures WellEscaped(Escape(token)) && '/' !in Escape(token)
  {
    EscapeIsOnePass(token);
    UnescapeIsOnePass(Escape(token));
    DecodeEncode(token);
  }

  /** Reading a well-escaped token and writing it back is the identity. */
  lemma UnescapeRoundTrip(raw: string)
    requires WellEscaped(raw) && '/' !in raw
    ensures Escape(Unescape(raw)) == raw
  {
    UnescapeIsOnePass(raw);
    EscapeIsOnePass(Unescape(raw));
    EncodeDecode(raw);
  }

  // ---------- Whole pointers ----------

  /** Tokens of a pointer without its leading slash, each unescaped. */
  function Tokens(body: string): (tokens: seq<string>)
    ensures |tokens| == |Split(body, '/')|
  {
    var raw := Split(body, '/');
    seq(|raw|, i requires 0 <= i < |raw| => Unescape(raw[i]))
  }

  /** `_pointer_tokens`. */
  function PointerTokens(pointer: string): (tokens: seq<string>)
    ensures tokens != []
  {
    Tokens(if pointer == "" then "" else pointer[1..])
  }

  /** Repeated `_pointer(parent, token)`, starting from the empty pointer. */
  function Print(tokens: seq<string>): string {
    if tokens == [] then "" else Print(tokens[..|tokens| - 1]) + "/" + Escape(tokens[|tokens| - 1])
  }

  /** An absolute pointer with correct escapes, as `_validate_json_pointer` accepts it. */
  predicate WellFormed(pointer: string) {
    StartsWith(pointer, "/") && forall raw :: raw in Split(pointer[1..], '/') ==> WellEscaped(raw)
  }

  function EscapeAll(tokens: seq<string>): (raw: seq<string>)
    ensures |raw| == |tokens|
    ensures forall i :: 0 <= i < |raw| ==> raw[i] == Escape(tokens[i])
  {
    seq(|tokens|, i requires 0 <= i < |tokens| => Escape(tokens[i]))
  }

  lemma {:induction false} JoinSnoc(parts: seq<string>, last: string, sep: char)
    requires |parts| > 0
    ensures Join(parts + [last], sep) == Join(parts, sep) + [sep] + last
  {
    if |parts| > 1 {
      JoinSnoc(parts[1..], last, sep);
      assert (parts + [last])[1..] == parts[1..] + [last];
    } else {
      assert (parts + [last])[1..] == [last];
    }
  }

  lemma EscapeAllSnoc(tokens: seq<string>, last: string)
    ensures EscapeAll(tokens + [last]) == EscapeAll(tokens) + [Escape(last)]
  {
  }

  lemma SlashInFront(joined: string, last: string)
    ensures ("/" + joined) + "/" + last == "/" + (joined + ['/'] + last)
  {
  }

  lemma {:induction false} PrintIsJoin(tokens: seq<string>)
    requires tokens != []
    ensures Print(tokens) == "/" + Join(EscapeAll(tokens), '/')
  {
    var init, last := tokens[..|tokens| - 1], tokens[|tokens| - 1];
    assert tokens == init + [last];
    EscapeAllSnoc(init, last);
    if init == [] {
      assert EscapeAll(tokens) == [Escape(last)];
    } else {
      PrintIsJoin(init);
      JoinSnoc(EscapeAll(init), Escape(last), '/');
      SlashInFront(Join(EscapeAll(init), '/'), Escape(last));
    }
  }

  /** Parsing a printed pointer returns its tokens. */
  lemma ParsePrint(tokens: seq<string>)
    requires tokens != []
    ensures WellFormed(Print(tokens))
    ensures Tokens(Print(tokens)[1..]) == tokens
  {
    PrintIsJoin(tokens);
    var raw := EscapeAll(tokens);
    forall i | 0 <= i < |raw|
      ensures Unescape(raw[i]) == tokens[i] && WellEscaped(raw[i]) && '/' !in raw[i]
    {
      EscapeRoundTrip(tokens[i]);
    }
    SplitJoin(raw, '/');
    assert Print(tokens)[1..] == Join(raw, '/');
  }

  /** Printing the tokens of a well-formed pointer returns the pointer. */
  lemma PrintParse(pointer: string)
    requires WellFormed(pointer)
    ensures Print(Tokens(pointer[1..])) == pointer
  {
    var tokens := Tokens(pointer[1..]);
    var raw := Split(pointer[1..], '/');
    PrintIsJoin(tokens);
    forall i | 0 <= i < |raw| ensures Escape(tokens[i]) == raw[i] {
      assert raw[i] in raw;
      UnescapeRoundTrip(raw[i]);
    }
    assert EscapeAll(tokens) == raw;
    JoinSplit(pointer[1..], '/');
    assert pointer == "/" + pointer[1..];
  }

  /** Distinct token lists never print alike. */
  lemma PrintInjective(a: seq<string>, b: seq<string>)
    requires Print(a) == Print(b)
    ensures a == b
  {
    if a != [] { ParsePrint(a); }
    if b != [] { ParsePrint(b); }
  }

  // ---------- The scanning loops ----------

  /** The inner `while` loop shared by both readers. */
  method ScanToken(raw: string) returns (ok: bool)
    ensures ok <==> WellEscaped(raw)
  {
    var index := 0;
    while index < |raw|
      invariant 0 <= index <= |raw|
      invariant WellEscaped(raw) <==> WellEscaped(raw[index..])
    {
      var rest := raw[index..];
      if raw[index] == '~' {
        if index + 1 >= |raw| || raw[index + 1] !in {'0', '1'} {
          return false;
        }
        assert rest[2..] == raw[index + 2..];
        index := index + 2;
      } else {
        assert rest[1..] == raw[index + 1..];
        index := index + 1;
      }
    }
    ok := true;
  }

  /** `_validate_json_pointer`: true where the source returns, false where it raises. */
  method ValidateJsonPointer(pointer: string) returns (ok: bool)
    ensures ok <==> WellFormed(pointer)
  {
    if !StartsWith(pointer, "/") {
      return false;
    }
    var raw := Split(pointer[1..], '/');
    var i := 0;
    while i < |raw|
      invariant 0 <= i <= |raw|
      invariant forall j :: 0 <= j < i ==> WellEscaped(raw[j])
    {
      var tokenOk := ScanToken(raw[i]);
      if !tokenOk {
        assert raw[i] in raw;
        return false;
      }
      i := i + 1;
    }
    ok := true;
  }

  /** `_json_pointer_tokens`: `None` where the source raises `ValueError`. */
  method JsonPointerTokens(pointer: string) returns (result: Option<seq<string>>)
    ensures result.Some? <==> WellFormed(pointer) && "" !in Tokens(pointer[1..])
    ensures result.Some? ==> result.value == Tokens(pointer[1..]) && Print(result.value) == pointer
  {
    if !StartsWith(pointer, "/") {
      return None;
    }
    var raw := Split(pointer[1..], '/');
    var tokens: seq<string> := [];
    var i := 0;
    while i < |raw|
      invariant 0 <= i <= |raw|
      invariant |tokens| == i
      invariant forall j :: 0 <= j < i ==> WellEscaped(raw[j]) && tokens[j] == Unescape(raw[j])
    {
      var tokenOk := ScanToken(raw[i]);
      if !tokenOk {
        assert raw[i] in raw;
        return None;
      }
      tokens := tokens + [Unescape(raw[i])];
      i := i + 1;
    }
    assert tokens == Tokens(pointer[1..]);
    if "" in tokens {
      return None;
    }
    PrintParse(pointer);
    result := Some(tokens);
  }

  // ---------- Array indexes ----------

  /** `token.isdecimal()` on ASCII digits, without a superfluous leading zero. */
  predicate IsIndex(token: string) {
    token != "" && (forall c :: c in token ==> '0' <= c <= '9') && (|token| > 1 ==> token[0] != '0')
  }

  /** `int(token)`. */
  function IndexOf(token: string): nat
    requires forall c :: c in token ==> '0' <= c <= '9'
  {
    if token == "" then 0
    else
      var n := |token| - 1;
      assert token[n] in token && forall c :: c in token[..n] ==> c in token;
      IndexOf(token[..n]) * 10 + (token[n] as int - '0' as int)
  }

  /** `str(index)`. */
  function Decimal(index: nat): (token: string)
    ensures IsIndex(token)
    ensures index == 0 <==> token[0] == '0'
  {
    var digit := ('0' as int + index % 10) as char;
    if index < 10 then [digit] else Decimal(index / 10) + [digit]
  }

  lemma {:induction false} DecimalRoundTrip(index: nat)
    ensures IndexOf(Decimal(index)) == index
  {
    if index >= 10 {
      DecimalRoundTrip(index / 10);
      var d := Decimal(index / 10);
      assert Decimal(index)[..|d|] == d;
    } else {
      assert Decimal(index)[..0] == "";
    }
  }
}
