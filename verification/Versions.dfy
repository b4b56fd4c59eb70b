/** Version strings: the separator-aware comparator and the component parser
    (src/capability.cpp). */
module Versions {
  import opened Foundation

  const NUL: Byte := 0
  const DOT: Byte := 46
  const TWO_64: nat := 0x1_0000_0000_0000_0000
  const MAX_COMPONENTS := 8

  predicate IsDigit(c: Byte) { 48 <= c <= 57 }

  function Digit(c: Byte): int { c as int - 48 }

  /** The value of a run of digits, accumulated in a 64-bit word that wraps. */
  function NumberOf(digits: Text): (r: nat)
    requires forall i :: 0 <= i < |digits| ==> IsDigit(digits[i])
    ensures r < TWO_64
  {
    if digits == [] then 0
    else (NumberOf(digits[..|digits| - 1]) * 10 + Digit(digits[|digits| - 1])) % TWO_64
  }

  /** Length of the run of digits at the front of a string. */
  function DigitRun(s: Text): (n: nat)
    ensures n <= |s|
    ensures forall i :: 0 <= i < n ==> IsDigit(s[i])
    ensures n < |s| ==> !IsDigit(s[n])
  {
    if s != [] && IsDigit(s[0]) then 1 + DigitRun(s[1..]) else 0
  }

  lemma {:induction false} DigitRunIs(s: Text, n: nat)
    requires n <= |s|
    requires forall i :: 0 <= i < n ==> IsDigit(s[i])
    requires n < |s| ==> !IsDigit(s[n])
    ensures DigitRun(s) == n
  {
    if n > 0 {
      DigitRunIs(s[1..], n - 1);
    }
  }

  /** One step of the comparison reads a number and the separator that follows it. */
  datatype Token = Token(number: nat, separator: Byte)

  const PADDING := Token(0, NUL)

  function Head(s: Text): Token {
    var n := DigitRun(s);
    Token(NumberOf(s[..n]), if n < |s| then s[n] else NUL)
  }

  function Tail(s: Text): (r: Text)
    ensures s != [] ==> |r| < |s|
    ensures s == [] ==> r == []
  {
    var n := DigitRun(s);
    if n < |s| then s[n + 1..] else []
  }

  function Tokens(s: Text): seq<Token>
    decreases |s|
  {
    if s == [] then [] else [Head(s)] + Tokens(Tail(s))
  }

  // ---------------------------------------------------------------------------------
  // The order on tokens: number first, then separator, with end-of-string below '.'
  // below every other byte. Bytes compare as signed characters.
  // ---------------------------------------------------------------------------------

  function SeparatorRank(c: Byte): int {
    if c == NUL then -1000
    else if c == DOT then -999
    else if c >= 128 then c - 256
    else c
  }

  function Sign(a: int, b: int): int {
    if a < b then -1 else if a > b then 1 else 0
  }

  function CompareTokens(a: Token, b: Token): int {
    if a.number != b.number then Sign(a.number, b.number)
    else Sign(SeparatorRank(a.separator), SeparatorRank(b.separator))
  }

  function First(ts: seq<Token>): Token {
    if ts == [] then PADDING else ts[0]
  }

  function Rest(ts: seq<Token>): seq<Token> {
    if ts == [] then [] else ts[1..]
  }

  /** Lexicographic order, the shorter list padded with (0, NUL). */
  function CompareLists(ts: seq<Token>, us: seq<Token>): int
    decreases |ts| + |us|
  {
    if ts == [] && us == [] then 0
    else
      var c := CompareTokens(First(ts), First(us));
      if c != 0 then c else CompareLists(Rest(ts), Rest(us))
  }

  function CompareVersions(a: Text, b: Text): int {
    CompareLists(Tokens(a), Tokens(b))
  }

  // ---------------------------------------------------------------------------------
  // compare_version_strings is a total preorder
  // ---------------------------------------------------------------------------------

  lemma {:induction false} ListsReflexive(ts: seq<Token>)
    ensures CompareLists(ts, ts) == 0
  {
    if ts != [] {
      ListsReflexive(ts[1..]);
    }
  }

  lemma {:induction false} ListsAntisymmetric(ts: seq<Token>, us: seq<Token>)
    ensures CompareLists(ts, us) == -CompareLists(us, ts)
    decreases |ts| + |us|
  {
    if ts != [] || us != [] {
      ListsAntisymmetric(Rest(ts), Rest(us));
    }
  }

  lemma {:induction false} ListsTransitive(ts: seq<Token>, us: seq<Token>, vs: seq<Token>)
    requires CompareLists(ts, us) <= 0
    requires CompareLists(us, vs) <= 0
    ensures CompareLists(ts, vs) <= 0
    decreases |ts| + |us| + |vs|
  {
    if ts == [] && us == [] {
    } else if us == [] && vs == [] {
    } else if CompareTokens(First(ts), First(us)) == 0 == CompareTokens(First(us), First(vs)) {
      ListsTransitive(Rest(ts), Rest(us), Rest(vs));
    }
  }

  /** Reflexive, sign-antisymmetric and transitive on all byte strings, total by antisymmetry. */
  lemma VersionOrderIsTotalPreorder(a: Text, b: Text, c: Text)
    ensures CompareVersions(a, a) == 0
    ensures CompareVersions(a, b) == -CompareVersions(b, a)
    ensures CompareVersions(a, b) <= 0 && CompareVersions(b, c) <= 0 ==> CompareVersions(a, c) <= 0
  {
    ListsReflexive(Tokens(a));
    ListsAntisymmetric(Tokens(a), Tokens(b));
    if CompareVersions(a, b) <= 0 && CompareVersions(b, c) <= 0 {
      ListsTransitive(Tokens(a), Tokens(b), Tokens(c));
    }
  }

  // ---------------------------------------------------------------------------------
  // When two strings compare equal
  // ---------------------------------------------------------------------------------

  /** A token list without the padding at its end. */
  function Trim(ts: seq<Token>): seq<Token> {
    if ts == [] then []
    else if Trim(ts[1..]) == [] && ts[0] == PADDING then []
    else [ts[0]] + Trim(ts[1..])
  }

  lemma SeparatorsAreRankedApart(a: Token, b: Token)
    ensures CompareTokens(a, b) == 0 <==> a == b
  {
  }

  lemma TrimHead(ts: seq<Token>)
    ensures Trim(ts) == if Trim(Rest(ts)) == [] && First(ts) == PADDING then [] else [First(ts)] + Trim(Rest(ts))
  {
  }

  lemma {:induction false} EqualListsTrimAlike(ts: seq<Token>, us: seq<Token>)
    ensures CompareLists(ts, us) == 0 <==> Trim(ts) == Trim(us)
    decreases |ts| + |us|
  {
    hide CompareTokens;
    if ts != [] || us != [] {
      EqualListsTrimAlike(Rest(ts), Rest(us));
      SeparatorsAreRankedApart(First(ts), First(us));
      TrimHead(ts);
      TrimHead(us);
      hide Trim;
      var t, u := Trim(Rest(ts)), Trim(Rest(us));
      assert ([First(ts)] + t)[0] == First(ts) && ([First(ts)] + t)[1..] == t;
      assert ([First(us)] + u)[0] == First(us) && ([First(us)] + u)[1..] == u;
    }
  }

  /** Two strings compare equal exactly when they read as the same (number, separator) tokens up
      to (0, NUL) tokens at the end. */
  lemma VersionsCompareEqualExactly(a: Text, b: Text)
    ensures CompareVersions(a, b) == 0 <==> Trim(Tokens(a)) == Trim(Tokens(b))
  {
    EqualListsTrimAlike(Tokens(a), Tokens(b));
  }

  /** So it is not an order on strings: a NUL byte and leading zeros are invisible to it. */
  lemma VersionOrderIdentifiesDistinctStrings()
    ensures CompareVersions([], [NUL]) == 0
    ensures CompareVersions([49], [48, 49]) == 0
  {
    assert Tokens([NUL]) == [PADDING] by {
      assert DigitRun([NUL]) == 0;
      assert Tail([NUL]) == [];
    }
    assert CompareLists([], [PADDING]) == 0;
    var one: Text := [49];
    var padded: Text := [48, 49];
    DigitRunIs(one, 1);
    DigitRunIs(padded, 2);
    assert one[..1] == one && padded[..2] == padded && padded[..1] == [48];
    assert one[..0] == [] && [48][..0] == [];
    assert NumberOf(one) == 1;
    assert NumberOf([48]) == 0;
    assert NumberOf(padded) == 1;
    assert Tokens(one) == [Token(1, NUL)] + Tokens([]);
    assert Tokens(padded) == [Token(1, NUL)] + Tokens([]);
    ListsReflexive(Tokens(one));
  }

  // ---------------------------------------------------------------------------------
  // What follows a number
  // ---------------------------------------------------------------------------------

  predicate IsSeparator(c: Byte) { !IsDigit(c) && c != NUL }

  lemma AfterDigits(digits: Text, separator: Byte, rest: Text)
    requires forall i :: 0 <= i < |digits| ==> IsDigit(digits[i])
    requires !IsDigit(separator)
    ensures Head(digits + [separator] + rest) == Token(NumberOf(digits), separator)
    ensures Head(digits) == Token(NumberOf(digits), NUL) && Tail(digits) == []
  {
    var s := digits + [separator] + rest;
    DigitRunIs(s, |digits|);
    assert s[..|digits|] == digits;
    DigitRunIs(digits, |digits|);
    assert digits[..|digits|] == digits;
  }

  /** After one and the same number, the end of the string sorts before every separator ... */
  lemma EndSortsFirst(digits: Text, separator: Byte, rest: Text)
    requires forall i :: 0 <= i < |digits| ==> IsDigit(digits[i])
    requires IsSeparator(separator)
    ensures CompareVersions(digits, digits + [separator] + rest) < 0
  {
    hide Tokens, Head, Tail;
    AfterDigits(digits, separator, rest);
    CompareStep(digits, digits + [separator] + rest);
  }

  /** ... a '.' before every other separator ... */
  lemma DotSortsBeforeOthers(digits: Text, separator: Byte, rest: Text, other: Text)
    requires forall i :: 0 <= i < |digits| ==> IsDigit(digits[i])
    requires IsSeparator(separator) && separator != DOT
    ensures CompareVersions(digits + [DOT] + rest, digits + [separator] + other) < 0
  {
    hide Tokens, Head, Tail;
    AfterDigits(digits, DOT, rest);
    AfterDigits(digits, separator, other);
    CompareStep(digits + [DOT] + rest, digits + [separator] + other);
  }

  /** ... and any other two in the order of signed characters: bytes from 128 up come first. */
  lemma SeparatorsSortAsSignedCharacters(digits: Text, a: Byte, b: Byte, rest: Text, other: Text)
    requires forall i :: 0 <= i < |digits| ==> IsDigit(digits[i])
    requires IsSeparator(a) && IsSeparator(b) && a != DOT && b != DOT
    ensures a < b && (a >= 128 <==> b >= 128) ==>
              CompareVersions(digits + [a] + rest, digits + [b] + other) < 0
    ensures a >= 128 > b ==> CompareVersions(digits + [a] + rest, digits + [b] + other) < 0
  {
    hide Tokens, Head, Tail;
    AfterDigits(digits, a, rest);
    AfterDigits(digits, b, other);
    CompareStep(digits + [a] + rest, digits + [b] + other);
  }

  /** After the same number and the same separator, what follows decides. */
  lemma SamePrefixLeavesRest(digits: Text, separator: Byte, rest: Text, other: Text)
    requires forall i :: 0 <= i < |digits| ==> IsDigit(digits[i])
    requires !IsDigit(separator)
    ensures CompareVersions(digits + [separator] + rest, digits + [separator] + other) == CompareVersions(rest, other)
  {
    hide Tokens, Head;
    AfterDigits(digits, separator, rest);
    AfterDigits(digits, separator, other);
    TailAfterDigits(digits, separator, rest);
    TailAfterDigits(digits, separator, other);
    hide Tail;
    CompareStep(digits + [separator] + rest, digits + [separator] + other);
  }

  lemma TailAfterDigits(digits: Text, separator: Byte, rest: Text)
    requires forall i :: 0 <= i < |digits| ==> IsDigit(digits[i])
    requires !IsDigit(separator)
    ensures Tail(digits + [separator] + rest) == rest
  {
    var s := digits + [separator] + rest;
    DigitRunIs(s, |digits|);
    assert s[|digits| + 1..] == rest;
  }

  // ---------------------------------------------------------------------------------
  // The comparison loop
  // ---------------------------------------------------------------------------------

  /** Reads the digits at position `from`; the accumulator is a wrapping 64-bit word. */
  method ReadNumber(s: Text, from: nat) returns (number: nat, end: nat)
    requires from <= |s|
    ensures end == from + DigitRun(s[from..])
    ensures number == NumberOf(s[from..end])
  {
    number, end := 0, from;
    while end < |s| && IsDigit(s[end])
      invariant from <= end <= |s|
      invariant forall i :: from <= i < end ==> IsDigit(s[i])
      invariant number == NumberOf(s[from..end])
    {
      assert s[from..end + 1][..end - from] == s[from..end];
      number := (number * 10 + Digit(s[end])) % TWO_64;
      end := end + 1;
    }
    DigitRunIs(s[from..], end - from);
  }

  /** Reads the number at position `from` and steps over the separator that follows it. */
  method ReadToken(s: Text, from: nat) returns (number: nat, separator: Byte, next: nat)
    requires from <= |s|
    ensures Head(s[from..]) == Token(number, separator)
    ensures from <= next <= |s| && Tail(s[from..]) == s[next..]
    ensures from < |s| ==> from < next
  {
    var end;
    number, end := ReadNumber(s, from);
    separator := if end < |s| then s[end] else NUL;
    next := if end < |s| then end + 1 else end;
    assert s[from..end] == s[from..][..end - from];
    assert s[from..][DigitRun(s[from..])..] == s[end..];
    if end < |s| {
      assert s[from..][DigitRun(s[from..]) + 1..] == s[next..];
    }
  }

  lemma CompareStep(a: Text, b: Text)
    ensures a == [] && b == [] ==> CompareVersions(a, b) == 0
    ensures (a != [] || b != []) ==>
              CompareVersions(a, b) ==
              (var c := CompareTokens(Head(a), Head(b));
               if c != 0 then c else CompareVersions(Tail(a), Tail(b)))
  {
    assert Head([]) == PADDING;
    if a == [] && b == [] {
      return;
    }
    assert First(Tokens(a)) == Head(a) && First(Tokens(b)) == Head(b);
    assert Rest(Tokens(a)) == Tokens(Tail(a)) && Rest(Tokens(b)) == Tokens(Tail(b));
  }

  method CompareVersionStrings(a: Text, b: Text) returns (order: int)
    ensures order == CompareVersions(a, b)
  {
    hide Tokens, Head, Tail, CompareLists, CompareVersions;
    var ia: nat, ib: nat := 0, 0;
    assert a[0..] == a && b[0..] == b;
    while ia < |a| || ib < |b|
      invariant ia <= |a| && ib <= |b|
      invariant CompareVersions(a, b) == CompareVersions(a[ia..], b[ib..])
      decreases |a| - ia + |b| - ib
    {
      CompareStep(a[ia..], b[ib..]);
      var na, ca, ja := ReadToken(a, ia);
      var nb, cb, jb := ReadToken(b, ib);
      if na != nb {
        return if na < nb then -1 else 1;
      }
      if ca != cb {
        return if SeparatorRank(ca) < SeparatorRank(cb) then -1 else 1;
      }
      ia, ib := ja, jb;
    }
    CompareStep(a[ia..], b[ib..]);
    return 0;
  }

  // ---------------------------------------------------------------------------------
  // parse_version
  // ---------------------------------------------------------------------------------

  /** Length of the text before the first '.'. */
  function PieceLength(s: Text): (n: nat)
    ensures n <= |s|
    ensures forall i :: 0 <= i < n ==> s[i] != DOT
    ensures n < |s| ==> s[n] == DOT
  {
    if s == [] || s[0] == DOT then 0 else 1 + PieceLength(s[1..])
  }

  lemma {:induction false} PieceLengthIs(s: Text, n: nat)
    requires n <= |s|
    requires forall i :: 0 <= i < n ==> s[i] != DOT
    requires n < |s| ==> s[n] == DOT
    ensures PieceLength(s) == n
  {
    if n > 0 {
      PieceLengthIs(s[1..], n - 1);
    }
  }

  /** Reads one component digit by digit: the first offending character decides the error. */
  function ComponentValue(piece: Text): (r: Result<nat>)
    ensures r.Ok? ==> r.value <= U32_MAX
  {
    if piece == [] then Ok(0)
    else
      var c := piece[|piece| - 1];
      match ComponentValue(piece[..|piece| - 1])
      case Err(code) => Err(code)
      case Ok(value) =>
        if !IsDigit(c) then Err(InvalidArgument)
        else if value * 10 + Digit(c) > U32_MAX then Err(BoundExceeded)
        else Ok(value * 10 + Digit(c))
  }

  /** Parses what remains of the text after `count` components. */
  function ParseFrom(s: Text, count: nat): (r: Result<seq<nat>>)
    decreases |s|
  {
    var n := PieceLength(s);
    if n == 0 then Err(InvalidArgument)
    else
      match ComponentValue(s[..n])
      case Err(code) => Err(code)
      case Ok(value) =>
        if count + 1 > MAX_COMPONENTS then Err(BoundExceeded)
        else if n == |s| then Ok([value])
        else
          match ParseFrom(s[n + 1..], count + 1)
          case Err(code) => Err(code)
          case Ok(more) => Ok([value] + more)
  }

  function ParseVersion(text: Text): Result<seq<nat>> {
    ParseFrom(text, 0)
  }

  method ReadComponent(piece: Text) returns (r: Result<nat>)
    ensures r == ComponentValue(piece)
  {
    var value := 0;
    for i := 0 to |piece|
      invariant ComponentValue(piece[..i]) == Ok(value)
    {
      assert piece[..i + 1][..i] == piece[..i];
      if !IsDigit(piece[i]) {
        ComponentFails(piece, i + 1);
        return Err(InvalidArgument);
      }
      value := value * 10 + Digit(piece[i]);
      if value > U32_MAX {
        ComponentFails(piece, i + 1);
        return Err(BoundExceeded);
      }
    }
    assert piece[..|piece|] == piece;
    return Ok(value);
  }

  lemma {:induction false} ComponentFails(piece: Text, k: nat)
    requires k <= |piece|
    requires ComponentValue(piece[..k]).Err?
    ensures ComponentValue(piece) == ComponentValue(piece[..k])
  {
    if k == |piece| {
      assert piece[..k] == piece;
    } else {
      assert piece[..|piece| - 1][..k] == piece[..k];
      ComponentFails(piece[..|piece| - 1], k);
    }
  }

  /** The answer once `parts` have been read and `s` is left. */
  function Resume(parts: seq<nat>, s: Text): Result<seq<nat>> {
    match ParseFrom(s, |parts|)
    case Err(code) => Err(code)
    case Ok(more) => Ok(parts + more)
  }

  lemma ResumeStep(parts: seq<nat>, s: Text, value: nat)
    requires 0 < PieceLength(s) < |s| && ComponentValue(s[..PieceLength(s)]) == Ok(value)
    requires |parts| + 1 <= MAX_COMPONENTS
    ensures Resume(parts, s) == Resume(parts + [value], s[PieceLength(s) + 1..])
  {
    hide ComponentValue, PieceLength;
    var more := ParseFrom(s[PieceLength(s) + 1..], |parts| + 1);
    if more.Ok? {
      assert parts + ([value] + more.value) == (parts + [value]) + more.value;
    }
  }

  lemma ResumeStops(parts: seq<nat>, s: Text)
    requires |parts| <= MAX_COMPONENTS
    ensures PieceLength(s) == 0 ==> Resume(parts, s) == Err(InvalidArgument)
    ensures PieceLength(s) > 0 ==>
              match ComponentValue(s[..PieceLength(s)])
              case Err(code) => Resume(parts, s) == Err(code)
              case Ok(value) =>
                && (|parts| == MAX_COMPONENTS ==> Resume(parts, s) == Err(BoundExceeded))
                && (|parts| < MAX_COMPONENTS && PieceLength(s) == |s| ==> Resume(parts, s) == Ok(parts + [value]))
  {
    hide ComponentValue, PieceLength;
  }

  lemma ResumeStarts(text: Text)
    ensures text == [] ==> ParseVersion(text) == Err(InvalidArgument)
    ensures text != [] ==> ParseVersion(text) == Resume([], text)
  {
    assert ParseVersion(text).Ok? ==> [] + ParseVersion(text).value == ParseVersion(text).value;
  }

  method FindDot(text: Text, from: nat) returns (dot: nat)
    requires from <= |text|
    ensures from <= dot <= |text|
    ensures PieceLength(text[from..]) == dot - from
  {
    dot := from;
    while dot < |text| && text[dot] != DOT
      invariant from <= dot <= |text|
      invariant forall i :: from <= i < dot ==> text[i] != DOT
    {
      dot := dot + 1;
    }
    PieceLengthIs(text[from..], dot - from);
  }

  method ParseVersionString(text: Text) returns (r: Result<seq<nat>>)
    ensures r == ParseVersion(text)
  {
    hide ParseFrom, ParseVersion, Resume, ComponentValue, PieceLength;
    ResumeStarts(text);
    if text == [] {
      return Err(InvalidArgument);
    }
    var parts: seq<nat> := [];
    var index: nat := 0;
    assert text[0..] == text;
    while true
      invariant index <= |text| && |parts| <= MAX_COMPONENTS
      invariant ParseVersion(text) == Resume(parts, text[index..])
      decreases |text| - index
    {
      var dot := FindDot(text, index);
      ResumeStops(parts, text[index..]);
      if dot == index {
        return Err(InvalidArgument);
      }
      assert text[index..][..dot - index] == text[index..dot];
      var value := ReadComponent(text[index..dot]);
      if value.Err? {
        return Err(value.code);
      }
      if |parts| + 1 > MAX_COMPONENTS {
        return Err(BoundExceeded);
      }
      if dot == |text| {
        return Ok(parts + [value.value]);
      }
      assert text[index..][dot - index + 1..] == text[dot + 1..];
      ResumeStep(parts, text[index..], value.value);
      parts := parts + [value.value];
      index := dot + 1;
    }
  }

  // ---------------------------------------------------------------------------------
  // On versions that parse, the comparator is the lexicographic order of the components
  // ---------------------------------------------------------------------------------

  /** Lexicographic order of component lists; a proper prefix comes first. */
  function CompareComponents(p: seq<nat>, q: seq<nat>): int {
    if p == [] && q == [] then 0
    else if p == [] then -1
    else if q == [] then 1
    else if p[0] != q[0] then Sign(p[0], q[0])
    else CompareComponents(p[1..], q[1..])
  }

  function ComponentTokens(p: seq<nat>): seq<Token>
    requires p != []
  {
    if |p| == 1 then [Token(p[0], NUL)] else [Token(p[0], DOT)] + ComponentTokens(p[1..])
  }

  lemma {:induction false} ComponentIsNumber(piece: Text)
    requires ComponentValue(piece).Ok?
    ensures forall i :: 0 <= i < |piece| ==> IsDigit(piece[i])
    ensures NumberOf(piece) == ComponentValue(piece).value
  {
    if piece != [] {
      ComponentIsNumber(piece[..|piece| - 1]);
    }
  }

  lemma PieceIsToken(s: Text)
    requires s != [] && ComponentValue(s[..PieceLength(s)]).Ok?
    ensures var n := PieceLength(s);
            && Head(s) == Token(ComponentValue(s[..n]).value, if n < |s| then DOT else NUL)
            && Tail(s) == if n < |s| then s[n + 1..] else []
  {
    var n := PieceLength(s);
    ComponentIsNumber(s[..n]);
    assert forall i :: 0 <= i < n ==> s[i] == s[..n][i];
    DigitRunIs(s, n);
  }

  lemma {:induction false} ParsedTokens(s: Text, count: nat)
    requires ParseFrom(s, count).Ok?
    ensures ParseFrom(s, count).value != []
    ensures Tokens(s) == ComponentTokens(ParseFrom(s, count).value)
    decreases |s|
  {
    hide PieceLength, ComponentValue, Head, Tail;
    var n := PieceLength(s);
    PieceIsToken(s);
    if n < |s| {
      ParsedTokens(s[n + 1..], count + 1);
      var more := ParseFrom(s[n + 1..], count + 1).value;
      assert ([ComponentValue(s[..n]).value] + more)[1..] == more;
    }
  }

  lemma {:induction false} CompareComponentTokens(p: seq<nat>, q: seq<nat>)
    requires p != [] && q != []
    ensures CompareLists(ComponentTokens(p), ComponentTokens(q)) == CompareComponents(p, q)
  {
    var ts, us := ComponentTokens(p), ComponentTokens(q);
    if p[0] == q[0] {
      if |p| > 1 && |q| > 1 {
        assert Rest(ts) == ComponentTokens(p[1..]) && Rest(us) == ComponentTokens(q[1..]);
        CompareComponentTokens(p[1..], q[1..]);
      } else if |p| == 1 && |q| == 1 {
        assert Rest(ts) == [] == Rest(us);
      }
    }
  }

  lemma ParsedVersionsCompareByComponents(a: Text, b: Text)
    requires ParseVersion(a).Ok? && ParseVersion(b).Ok?
    ensures CompareVersions(a, b) == CompareComponents(ParseVersion(a).value, ParseVersion(b).value)
  {
    ParsedTokens(a, 0);
    ParsedTokens(b, 0);
    CompareComponentTokens(ParseVersion(a).value, ParseVersion(b).value);
  }

  lemma {:induction false} EqualComponents(p: seq<nat>, q: seq<nat>)
    ensures CompareComponents(p, q) == 0 <==> p == q
  {
    if p != [] && q != [] && p[0] == q[0] {
      EqualComponents(p[1..], q[1..]);
      assert p == [p[0]] + p[1..] && q == [q[0]] + q[1..];
    }
  }

  /** On strings the parser accepts, comparing equal is having the same components. */
  lemma ParsedVersionsCompareEqualExactly(a: Text, b: Text)
    requires ParseVersion(a).Ok? && ParseVersion(b).Ok?
    ensures CompareVersions(a, b) == 0 <==> ParseVersion(a) == ParseVersion(b)
  {
    hide ParseVersion, CompareVersions, CompareComponents;
    ParsedVersionsCompareByComponents(a, b);
    EqualComponents(ParseVersion(a).value, ParseVersion(b).value);
  }

  // ---------------------------------------------------------------------------------
  // Samples
  // ---------------------------------------------------------------------------------

  lemma SingleComponent(s: Text, count: nat)
    requires s != [] && (forall i :: 0 <= i < |s| ==> s[i] != DOT) && count < MAX_COMPONENTS
    ensures ParseFrom(s, count) == match ComponentValue(s) case Err(code) => Err(code) case Ok(value) => Ok([value])
  {
    PieceLengthIs(s, |s|);
    assert s[..|s|] == s;
  }

  lemma OneDigit(c: Byte)
    ensures ComponentValue([c]) == if 48 <= c <= 57 then Ok(c - 48) else Err(InvalidArgument)
  {
    assert [c][..0] == [];
    assert ComponentValue([]) == Ok(0);
  }

  lemma TwoDigits(c: Byte, d: Byte)
    requires 48 <= c <= 57 && 48 <= d <= 57
    ensures ComponentValue([c, d]) == Ok(10 * (c - 48) + d - 48)
  {
    OneDigit(c);
    assert [c, d][..1] == [c];
  }

  lemma TwoComponents(s: Text, n: nat, first: nat, second: nat)
    requires 0 < n < |s| - 1 && s[n] == DOT && forall i :: 0 <= i < |s| && i != n ==> s[i] != DOT
    requires ComponentValue(s[..n]) == Ok(first) && ComponentValue(s[n + 1..]) == Ok(second)
    ensures ParseVersion(s) == Ok([first, second])
  {
    hide ComponentValue;
    PieceLengthIs(s, n);
    SingleComponent(s[n + 1..], 1);
    assert ParseFrom(s[n + 1..], 1) == Ok([second]);
    assert [first] + [second] == [first, second];
  }

  lemma SampleComponents()
    ensures ParseVersion([49, 46, 49, 48]) == Ok([1, 10]) && ParseVersion([49, 46, 57]) == Ok([1, 9])
  {
    var ten: Text, nine: Text := [49, 46, 49, 48], [49, 46, 57];
    OneDigit(49);
    OneDigit(57);
    TwoDigits(49, 48);
    assert ten[..1] == [49] && ten[2..] == [49, 48] && nine[..1] == [49] && nine[2..] == [57];
    hide ComponentValue, ParseVersion;
    TwoComponents(ten, 1, 1, 10);
    TwoComponents(nine, 1, 1, 9);
  }

  lemma SampleRefusals()
    ensures ParseVersion([49, 58]) == Err(InvalidArgument) && ParseVersion([49, 47]) == Err(InvalidArgument)
  {
    var colon: Text, slash: Text := [49, 58], [49, 47];
    OneDigit(49);
    assert colon[..1] == [49] && slash[..1] == [49];
    assert ComponentValue(colon) == Err(InvalidArgument) && ComponentValue(slash) == Err(InvalidArgument);
    hide ComponentValue, ParseFrom;
    SingleComponent(colon, 0);
    SingleComponent(slash, 0);
  }

  /** "1.10" reads as the components 1 and 10 and comes after "1.9"; "1:" and "1/" do not parse. */
  lemma SampleVersions()
    ensures ParseVersion([49, 46, 49, 48]) == Ok([1, 10]) && ParseVersion([49, 46, 57]) == Ok([1, 9])
    ensures CompareVersions([49, 46, 57], [49, 46, 49, 48]) < 0
    ensures ParseVersion([49, 58]) == Err(InvalidArgument) && ParseVersion([49, 47]) == Err(InvalidArgument)
  {
    hide ParseVersion, CompareVersions;
    SampleComponents();
    SampleRefusals();
    ParsedVersionsCompareByComponents([49, 46, 57], [49, 46, 49, 48]);
    assert [1, 9][1..] == [9] && [1, 10][1..] == [10];
    assert CompareComponents([9], [10]) == -1;
  }
}
