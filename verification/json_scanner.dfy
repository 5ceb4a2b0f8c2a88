/**
  Pulling a JSON object out of a model's reply. The string-aware brace scanner is set against a
  printer of JSON texts (sections 4 to 7 of RFC 8259), and against the simpler find/rfind slice.
 */
module JsonScanner {
  import opened Wrappers

  // ----- JSON values and their printed form, as json.dumps writes it -----

  datatype Json =
    | Null
    | Bool(b: bool)
    | Num(literal: string)
    | Str(s: string)
    | Arr(items: seq<Json>)
    | Obj(members: seq<Member>)

  datatype Member = Member(key: string, value: Json)

  const QUOTE := '\"'
  const BACKSLASH := '\\'

  function HexDigit(n: int): char
    requires 0 <= n < 16
  {
    ['0', '1', '2', '3', '4', '5', '6', '7', '8', '9', 'a', 'b', 'c', 'd', 'e', 'f'][n]
  }

  // \uXXXX
  function UnicodeEscape(n: int): string
    requires 0 <= n < 0x10000
  {
    [BACKSLASH, 'u', HexDigit(n / 4096), HexDigit(n / 256 % 16), HexDigit(n / 16 % 16), HexDigit(n % 16)]
  }

  function ShortEscape(c: char): Option<char> {
    if c == QUOTE || c == BACKSLASH then Some(c)
    else if c == '\n' then Some('n')
    else if c == '\r' then Some('r')
    else if c == '\t' then Some('t')
    else if c as int == 8 then Some('b')
    else if c as int == 12 then Some('f')
    else None
  }

  function PrintChar(c: char): string {
    var n := c as int;
    if ShortEscape(c).Some? then [BACKSLASH, ShortEscape(c).value]
    else if 32 <= n < 127 then [c]
    else if n < 0x10000 then UnicodeEscape(n)
    else UnicodeEscape(0xd800 + (n - 0x10000) / 0x400 % 0x400) + UnicodeEscape(0xdc00 + (n - 0x10000) % 0x400)
  }

  function PrintChars(s: string): string {
    if s == "" then "" else PrintChar(s[0]) + PrintChars(s[1..])
  }

  function PrintString(s: string): string {
    [QUOTE] + PrintChars(s) + [QUOTE]
  }

  function Print(v: Json): string
    decreases v, 1
  {
    match v
    case Null => "null"
    case Bool(b) => if b then "true" else "false"
    case Num(literal) => literal
    case Str(s) => PrintString(s)
    case Arr(items) => "[" + PrintItems(items) + "]"
    case Obj(members) => "{" + PrintMembers(members) + "}"
  }

  function PrintItems(items: seq<Json>): string
    decreases items, 0
  {
    if items == [] then ""
    else Print(items[0]) + (if |items| == 1 then "" else ", ") + PrintItems(items[1..])
  }

  function PrintMembers(members: seq<Member>): string
    decreases members, 0
  {
    if members == [] then ""
    else
      PrintString(members[0].key) + ": " + Print(members[0].value)
      + (if |members| == 1 then "" else ", ") + PrintMembers(members[1..])
  }

  // A number literal holds neither quotes nor braces.
  predicate Plain(s: string) {
    forall i :: 0 <= i < |s| ==> s[i] != QUOTE && s[i] != '{' && s[i] != '}'
  }

  predicate WellFormed(v: Json)
    decreases v, 1
  {
    match v
    case Num(literal) => Plain(literal)
    case Arr(items) => forall i :: 0 <= i < |items| ==> WellFormed(items[i])
    case Obj(members) => forall i :: 0 <= i < |members| ==> WellFormed(members[i].value)
    case _ => true
  }

  // ----- The scanner -----

  datatype Scan = Scan(depth: int, inStr: bool, esc: bool)

  function Feed(st: Scan, ch: char): Scan {
    if st.inStr then
      if st.esc then st.(esc := false)
      else if ch == BACKSLASH then st.(esc := true)
      else if ch == QUOTE then st.(inStr := false)
      else st
    else if ch == QUOTE then st.(inStr := true)
    else if ch == '{' then st.(depth := st.depth + 1)
    else if ch == '}' then st.(depth := st.depth - 1)
    else st
  }

  // The character closes the object the scan began with.
  predicate Closes(st: Scan, ch: char) {
    !st.inStr && ch == '}' && st.depth == 1
  }

  // The index of the closing brace.
  function ScanFrom(text: string, i: nat, st: Scan): (end: Option<nat>)
    ensures end.Some? ==> i <= end.value < |text|
    decreases |text| - i
  {
    if i >= |text| then None
    else if Closes(st, text[i]) then Some(i)
    else ScanFrom(text, i + 1, Feed(st, text[i]))
  }

  function FindFrom(text: string, ch: char, from: nat): (r: Option<nat>)
    ensures r.Some? ==> from <= r.value < |text| && text[r.value] == ch && forall i :: from <= i < r.value ==> text[i] != ch
    ensures r.None? ==> forall i :: from <= i < |text| ==> text[i] != ch
    decreases |text| - from
  {
    if from >= |text| then None else if text[from] == ch then Some(from) else FindFrom(text, ch, from + 1)
  }

  // json.loads.
  datatype Loaded = Parsed(value: Json) | DecodeError

  type Loader = string -> Loaded

  function ExtractFrom(text: string, loads: Loader, from: nat): Option<Json>
    decreases |text| - from
  {
    var start := FindFrom(text, '{', from);
    if start.None? then None
    else
      var end := ScanFrom(text, start.value, Scan(0, false, false));
      if end.Some? && loads(text[start.value..end.value + 1]).Parsed? then
        var v := loads(text[start.value..end.value + 1]).value;
        if v.Obj? then Some(v) else None
      else
        ExtractFrom(text, loads, start.value + 1)
  }

  // The inner loop: the index where depth returns to zero.
  method FindEnd(text: string, start: nat) returns (end: Option<nat>)
    requires start < |text| && text[start] == '{'
    ensures end == ScanFrom(text, start, Scan(0, false, false))
  {
    var depth, inStr, esc := 0, false, false;
    for i := start to |text|
      invariant ScanFrom(text, i, Scan(depth, inStr, esc)) == ScanFrom(text, start, Scan(0, false, false))
      invariant if i == start then Scan(depth, inStr, esc) == Scan(0, false, false) else depth >= 1
    {
      var ch := text[i];
      if inStr {
        if esc {
          esc := false;
        } else if ch == BACKSLASH {
          esc := true;
        } else if ch == QUOTE {
          inStr := false;
        }
      } else if ch == QUOTE {
        inStr := true;
      } else if ch == '{' {
        depth := depth + 1;
      } else if ch == '}' {
        depth := depth - 1;
        if depth == 0 {
          return Some(i);
        }
      }
    }
    return None;
  }

  method ExtractJsonObject(text: string, loads: Loader) returns (r: Option<Json>)
    ensures r == ExtractFrom(text, loads, 0)
  {
    var start := FindFrom(text, '{', 0);
    ghost var from := 0;
    while start.Some?
      invariant start == FindFrom(text, '{', from)
      invariant ExtractFrom(text, loads, from) == ExtractFrom(text, loads, 0)
      decreases |text| - from, start.Some?
    {
      var end := FindEnd(text, start.value);
      if end.Some? {
        var obj := loads(text[start.value..end.value + 1]);
        if obj.Parsed? {
          return if obj.value.Obj? then Some(obj.value) else None;
        }
      }
      from := start.value + 1;
      start := FindFrom(text, '{', start.value + 1);
    }
    return None;
  }

  // ----- Which object is returned -----

  // At k starts a span whose braces close and which json.loads reads.
  predicate Candidate(text: string, loads: Loader, k: nat) {
    && k < |text| && text[k] == '{'
    && var end := ScanFrom(text, k, Scan(0, false, false));
       end.Some? && loads(text[k..end.value + 1]).Parsed?
  }

  function CandidateValue(text: string, loads: Loader, k: nat): Json
    requires Candidate(text, loads, k)
  {
    loads(text[k..ScanFrom(text, k, Scan(0, false, false)).value + 1]).value
  }

  ghost predicate FirstCandidate(text: string, loads: Loader, from: nat, k: nat) {
    from <= k && Candidate(text, loads, k) && forall j: nat :: from <= j < k ==> !Candidate(text, loads, j)
  }

  lemma {:induction false} NoCandidate(text: string, loads: Loader, from: nat)
    requires forall k: nat :: from <= k ==> !Candidate(text, loads, k)
    ensures ExtractFrom(text, loads, from) == None
    decreases |text| - from
  {
    var start := FindFrom(text, '{', from);
    if start.Some? {
      assert !Candidate(text, loads, start.value);
      NoCandidate(text, loads, start.value + 1);
    }
  }

  lemma {:induction false} ReturnsFirst(text: string, loads: Loader, from: nat, k: nat)
    requires FirstCandidate(text, loads, from, k)
    ensures var v := CandidateValue(text, loads, k); ExtractFrom(text, loads, from) == if v.Obj? then Some(v) else None
    decreases |text| - from
  {
    var start := FindFrom(text, '{', from);
    assert start.Some? && start.value <= k;
    if start.value < k {
      assert !Candidate(text, loads, start.value);
      ReturnsFirst(text, loads, start.value + 1, k);
    }
  }

  // The first candidate is found by trying every position.
  lemma {:induction false} SomeFirst(text: string, loads: Loader, from: nat, k: nat) returns (first: nat)
    requires from <= k && Candidate(text, loads, k)
    ensures FirstCandidate(text, loads, from, first)
    decreases k - from
  {
    if Candidate(text, loads, from) {
      first := from;
    } else {
      first := SomeFirst(text, loads, from + 1, k);
    }
  }

  /** For every text and loader: an object is returned exactly when it is the value of the first candidate, and nothing
      exactly when there is no candidate or the first one is not an object. */
  lemma ExtractsFirstCandidate(text: string, loads: Loader)
    ensures forall v :: ExtractFrom(text, loads, 0) == Some(v) <==>
              exists k :: FirstCandidate(text, loads, 0, k) && CandidateValue(text, loads, k) == v && v.Obj?
    ensures ExtractFrom(text, loads, 0) == None <==>
              || (forall k: nat :: !Candidate(text, loads, k))
              || exists k :: FirstCandidate(text, loads, 0, k) && !CandidateValue(text, loads, k).Obj?
  {
    if k: nat :| Candidate(text, loads, k) {
      var first := SomeFirst(text, loads, 0, k);
      ReturnsFirst(text, loads, 0, first);
      assert forall j :: FirstCandidate(text, loads, 0, j) ==> j == first;
    } else {
      NoCandidate(text, loads, 0);
    }
  }

  // ----- Scanning printed JSON -----

  function FeedAll(st: Scan, s: string): Scan
    decreases s
  {
    if s == "" then st else FeedAll(Feed(st, s[0]), s[1..])
  }

  // The scan runs over s without closing the object.
  predicate Passes(st: Scan, s: string)
    decreases s
  {
    s == "" || (!Closes(st, s[0]) && Passes(Feed(st, s[0]), s[1..]))
  }

  // s is scanned from state st to state st', within the object.
  predicate Moves(st: Scan, s: string, st': Scan) {
    Passes(st, s) && FeedAll(st, s) == st'
  }

  lemma {:induction false} MovesConcat(a: Scan, s: string, b: Scan, t: string, c: Scan)
    requires Moves(a, s, b) && Moves(b, t, c)
    ensures Moves(a, s + t, c)
    decreases s
  {
    if s == "" {
      assert s + t == t;
    } else {
      MovesConcat(Feed(a, s[0]), s[1..], b, t, c);
      assert (s + t)[0] == s[0] && (s + t)[1..] == s[1..] + t;
    }
  }

  function Outside(depth: int): Scan {
    Scan(depth, false, false)
  }

  function Inside(depth: int): Scan {
    Scan(depth, true, false)
  }

  lemma {:induction false} PlainMoves(s: string, depth: int)
    requires Plain(s)
    ensures Moves(Outside(depth), s, Outside(depth))
  {
    if s != "" {
      PlainMoves(s[1..], depth);
    }
  }

  // Characters of an escape sequence after the backslash and its letter.
  lemma {:induction false} LettersMove(s: string, depth: int)
    requires forall i :: 0 <= i < |s| ==> s[i] != QUOTE && s[i] != BACKSLASH
    ensures Moves(Inside(depth), s, Inside(depth))
  {
    if s != "" {
      LettersMove(s[1..], depth);
    }
  }

  lemma EscapeMoves(c: char, rest: string, depth: int)
    requires forall i :: 0 <= i < |rest| ==> rest[i] != QUOTE && rest[i] != BACKSLASH
    ensures Moves(Inside(depth), [BACKSLASH, c] + rest, Inside(depth))
  {
    LettersMove(rest, depth);
    var s := [BACKSLASH, c] + rest;
    assert s[1..] == [c] + rest && s[1..][1..] == rest;
    assert Feed(Feed(Inside(depth), BACKSLASH), c) == Inside(depth);
    assert Passes(Feed(Inside(depth), BACKSLASH), s[1..]);
  }

  lemma UnicodeMoves(n: int, depth: int)
    requires 0 <= n < 0x10000
    ensures Moves(Inside(depth), UnicodeEscape(n), Inside(depth))
  {
    var rest := [HexDigit(n / 4096), HexDigit(n / 256 % 16), HexDigit(n / 16 % 16), HexDigit(n % 16)];
    EscapeMoves('u', rest, depth);
    assert UnicodeEscape(n) == [BACKSLASH, 'u'] + rest;
  }

  lemma CharMoves(c: char, depth: int)
    ensures Moves(Inside(depth), PrintChar(c), Inside(depth))
  {
    var n := c as int;
    if ShortEscape(c).Some? {
      EscapeMoves(ShortEscape(c).value, "", depth);
      assert PrintChar(c) == [BACKSLASH, ShortEscape(c).value] + "";
    } else if 32 <= n < 127 {
      LettersMove([c], depth);
    } else if n < 0x10000 {
      UnicodeMoves(n, depth);
    } else {
      var hi, lo := 0xd800 + (n - 0x10000) / 0x400 % 0x400, 0xdc00 + (n - 0x10000) % 0x400;
      UnicodeMoves(hi, depth);
      UnicodeMoves(lo, depth);
      MovesConcat(Inside(depth), UnicodeEscape(hi), Inside(depth), UnicodeEscape(lo), Inside(depth));
    }
  }

  lemma {:induction false} CharsMove(s: string, depth: int)
    ensures Moves(Inside(depth), PrintChars(s), Inside(depth))
  {
    if s != "" {
      CharMoves(s[0], depth);
      CharsMove(s[1..], depth);
      MovesConcat(Inside(depth), PrintChar(s[0]), Inside(depth), PrintChars(s[1..]), Inside(depth));
    }
  }

  lemma OneMoves(st: Scan, ch: char)
    requires !Closes(st, ch)
    ensures Moves(st, [ch], Feed(st, ch))
  {
    assert [ch][1..] == "";
  }

  lemma StringMoves(s: string, depth: int)
    ensures Moves(Outside(depth), PrintString(s), Outside(depth))
  {
    CharsMove(s, depth);
    OneMoves(Outside(depth), QUOTE);
    OneMoves(Inside(depth), QUOTE);
    MovesConcat(Outside(depth), [QUOTE], Inside(depth), PrintChars(s), Inside(depth));
    MovesConcat(Outside(depth), [QUOTE] + PrintChars(s), Inside(depth), [QUOTE], Outside(depth));
  }

  // What may stand between the quotes of a string (section 7 of RFC 8259): characters other than a quote and a
  // backslash, and backslashes each with the character after it.
  predicate StringBody(s: string) {
    s == ""
    || (s[0] != QUOTE && s[0] != BACKSLASH && StringBody(s[1..]))
    || (s[0] == BACKSLASH && |s| >= 2 && StringBody(s[2..]))
  }

  lemma {:induction false} BodyMoves(s: string, depth: int)
    requires StringBody(s)
    ensures Moves(Inside(depth), s, Inside(depth))
    decreases s
  {
    if s != "" {
      if s[0] == BACKSLASH {
        BodyMoves(s[2..], depth);
        assert s[1..][1..] == s[2..];
        assert Feed(Feed(Inside(depth), s[0]), s[1..][0]) == Inside(depth);
        assert Passes(Feed(Inside(depth), s[0]), s[1..]);
      } else {
        BodyMoves(s[1..], depth);
      }
    }
  }

  /** The scanner passes over any string literal, with whatever braces, quotes and backslashes it holds, and is outside
      it exactly behind its closing quote. */
  lemma LiteralMoves(body: string, depth: int)
    requires StringBody(body)
    ensures Moves(Outside(depth), [QUOTE] + body + [QUOTE], Outside(depth))
  {
    BodyMoves(body, depth);
    OneMoves(Outside(depth), QUOTE);
    OneMoves(Inside(depth), QUOTE);
    MovesConcat(Outside(depth), [QUOTE], Inside(depth), body, Inside(depth));
    MovesConcat(Outside(depth), [QUOTE] + body, Inside(depth), [QUOTE], Outside(depth));
  }

  // A printed value, inside an object, leaves the scan where it was.
  lemma {:induction false} ValueMoves(v: Json, depth: int)
    requires WellFormed(v) && depth >= 1
    ensures Moves(Outside(depth), Print(v), Outside(depth))
    decreases v, 1
  {
    match v
    case Null => PlainMoves("null", depth);
    case Bool(b) => PlainMoves(Print(v), depth);
    case Num(literal) => PlainMoves(literal, depth);
    case Str(s) => StringMoves(s, depth);
    case Arr(items) =>
      PlainMoves("[", depth);
      PlainMoves("]", depth);
      ItemsMove(items, depth);
      MovesConcat(Outside(depth), "[", Outside(depth), PrintItems(items), Outside(depth));
      MovesConcat(Outside(depth), "[" + PrintItems(items), Outside(depth), "]", Outside(depth));
    case Obj(members) =>
      OneMoves(Outside(depth), '{');
      OneMoves(Outside(depth + 1), '}');
      MembersMove(members, depth + 1);
      MovesConcat(Outside(depth), "{", Outside(depth + 1), PrintMembers(members), Outside(depth + 1));
      MovesConcat(Outside(depth), "{" + PrintMembers(members), Outside(depth + 1), "}", Outside(depth));
  }

  lemma {:induction false} ItemsMove(items: seq<Json>, depth: int)
    requires depth >= 1 && forall i :: 0 <= i < |items| ==> WellFormed(items[i])
    ensures Moves(Outside(depth), PrintItems(items), Outside(depth))
    decreases items, 0
  {
    if items != [] {
      var o, first, sep := Outside(depth), Print(items[0]), if |items| == 1 then "" else ", ";
      ValueMoves(items[0], depth);
      PlainMoves(sep, depth);
      ItemsMove(items[1..], depth);
      MovesConcat(o, first, o, sep, o);
      MovesConcat(o, first + sep, o, PrintItems(items[1..]), o);
    }
  }

  lemma {:induction false} MembersMove(members: seq<Member>, depth: int)
    requires depth >= 1 && forall i :: 0 <= i < |members| ==> WellFormed(members[i].value)
    ensures Moves(Outside(depth), PrintMembers(members), Outside(depth))
    decreases members, 0
  {
    if members != [] {
      var o, key, value := Outside(depth), PrintString(members[0].key), Print(members[0].value);
      var sep := if |members| == 1 then "" else ", ";
      StringMoves(members[0].key, depth);
      PlainMoves(": ", depth);
      ValueMoves(members[0].value, depth);
      PlainMoves(sep, depth);
      MembersMove(members[1..], depth);
      MovesConcat(o, key, o, ": ", o);
      MovesConcat(o, key + ": ", o, value, o);
      MovesConcat(o, key + ": " + value, o, sep, o);
      MovesConcat(o, key + ": " + value + sep, o, PrintMembers(members[1..]), o);
    }
  }

  // Scanning a text runs over a part that does not close the object.
  lemma {:induction false} ScanSkips(text: string, i: nat, s: string, st: Scan)
    requires i + |s| <= |text| && text[i..i + |s|] == s && Passes(st, s)
    ensures ScanFrom(text, i, st) == ScanFrom(text, i + |s|, FeedAll(st, s))
    decreases s
  {
    if s != "" {
      assert text[i] == s[0] && text[i + 1..i + |s|] == s[1..];
      ScanSkips(text, i + 1, s[1..], Feed(st, s[0]));
    }
  }

  /** Started at a printed object, the scanner stops exactly at its last character, whatever surrounds it. */
  lemma ScannerStopsAtEnd(prefix: string, v: Json, suffix: string)
    requires v.Obj? && WellFormed(v)
    ensures ScanFrom(prefix + Print(v) + suffix, |prefix|, Scan(0, false, false)) == Some(|prefix| + |Print(v)| - 1)
  {
    var text, inner := prefix + Print(v) + suffix, PrintMembers(v.members);
    MembersMove(v.members, 1);
    OneMoves(Outside(0), '{');
    MovesConcat(Outside(0), "{", Outside(1), inner, Outside(1));
    var unclosed := "{" + inner;
    assert Print(v) == unclosed + "}";
    assert text[|prefix|..|prefix| + |unclosed|] == unclosed;
    ScanSkips(text, |prefix|, unclosed, Outside(0));
    assert text[|prefix| + |unclosed|] == '}';
  }

  lemma FirstBrace(prefix: string, v: Json, suffix: string)
    requires v.Obj? && '{' !in prefix
    ensures FindFrom(prefix + Print(v) + suffix, '{', 0) == Some(|prefix|)
  {
    var text := prefix + Print(v) + suffix;
    assert text[|prefix|] == Print(v)[0] == '{';
    var found := FindFrom(text, '{', 0);
    assert forall i :: 0 <= i < |prefix| ==> text[i] == prefix[i];
  }

  /** Round trip: for every object, every prefix in which no candidate starts and every suffix, the object comes back,
      given that json.loads reads back what json.dumps wrote for it. */
  lemma ExtractReturnsPrinted(prefix: string, v: Json, suffix: string, loads: Loader)
    requires v.Obj? && WellFormed(v) && loads(Print(v)) == Parsed(v)
    requires forall k: nat :: k < |prefix| ==> !Candidate(prefix + Print(v) + suffix, loads, k)
    ensures ExtractFrom(prefix + Print(v) + suffix, loads, 0) == Some(v)
  {
    var text := prefix + Print(v) + suffix;
    ScannerStopsAtEnd(prefix, v, suffix);
    assert text[|prefix|] == Print(v)[0] == '{';
    assert text[|prefix|..|prefix| + |Print(v)|] == Print(v);
    ReturnsFirst(text, loads, 0, |prefix|);
  }

  /** In particular every prefix without an opening brace. */
  lemma ExtractReturnsAfterPlainText(prefix: string, v: Json, suffix: string, loads: Loader)
    requires v.Obj? && WellFormed(v) && loads(Print(v)) == Parsed(v) && '{' !in prefix
    ensures ExtractFrom(prefix + Print(v) + suffix, loads, 0) == Some(v)
  {
    var text := prefix + Print(v) + suffix;
    forall k: nat | k < |prefix| ensures !Candidate(text, loads, k) {
      assert text[k] == prefix[k];
    }
    ExtractReturnsPrinted(prefix, v, suffix, loads);
  }

  // ----- The find/rfind slice of parse_verdict -----

  function FindLast(text: string, ch: char): (r: Option<nat>)
    ensures r.Some? ==> r.value < |text| && text[r.value] == ch && forall i :: r.value < i < |text| ==> text[i] != ch
    ensures r.None? ==> forall i :: 0 <= i < |text| ==> text[i] != ch
  {
    if text == "" then None
    else if text[|text| - 1] == ch then Some(|text| - 1)
    else FindLast(text[..|text| - 1], ch)
  }

  // The text handed to json.loads, if any.
  function Slice(text: string): Option<string> {
    var start, end := FindFrom(text, '{', 0), FindLast(text, '}');
    if start.None? || end.None? || end.value <= start.value then None else Some(text[start.value..end.value + 1])
  }

  lemma LastBrace(text: string, last: nat, suffix: string)
    requires last < |text| && text[last] == '}' && text[last + 1..] == suffix
    ensures FindLast(text, '}').Some? && FindLast(text, '}').value >= last
    ensures FindLast(text, '}') == Some(last) <==> '}' !in suffix
  {
    assert forall i :: last < i < |text| ==> text[i] == suffix[i - last - 1];
    if '}' in suffix {
      var j :| 0 <= j < |suffix| && suffix[j] == '}';
      assert text[last + 1 + j] == '}';
    }
  }

  /** The slice is the printed object exactly when no closing brace follows it; the scanner has no such condition. */
  lemma SliceAgreesIff(prefix: string, v: Json, suffix: string)
    requires v.Obj? && '{' !in prefix
    ensures Slice(prefix + Print(v) + suffix) == Some(Print(v)) <==> '}' !in suffix
  {
    var text, last := prefix + Print(v) + suffix, |prefix| + |Print(v)| - 1;
    FirstBrace(prefix, v, suffix);
    assert text[last] == Print(v)[|Print(v)| - 1] == '}';
    assert text[last + 1..] == suffix;
    LastBrace(text, last, suffix);
    var end := FindLast(text, '}').value;
    assert end == last ==> text[|prefix|..end + 1] == Print(v);
    assert end > last ==> |text[|prefix|..end + 1]| > |Print(v)|;
  }
}
