/** DerivationPath (accounts/hd.go): printing and parsing of hierarchical wallet paths. */
module DerivationPaths {
  import opened Basics

  const HARDENED: nat := 0x8000_0000
  const MAX_UINT32: nat := 0xFFFF_FFFF

  type Path = seq<nat>

  const DEFAULT_ROOT: Path := [HARDENED + 44, HARDENED + 60, HARDENED, 0]

  datatype ParseError = EmptyPath | AmbiguousPath | InvalidComponent | OutOfRange

  // ---------- Library functions the code relies on ----------

  /** strings.Split: the pieces between separators; there is always at least one. */
  function Split(s: string, sep: char): (r: seq<string>)
    ensures |r| > 0
  {
    if s == [] then [[]]
    else if s[0] == sep then [[]] + Split(s[1..], sep)
    else
      var r := Split(s[1..], sep);
      [[s[0]] + r[0]] + r[1..]
  }

  /** Unicode white space. */
  predicate IsSpace(c: char) {
    var n := c as int;
    9 <= n <= 13 || n == 0x20 || n == 0x85 || n == 0xA0 || n == 0x1680 || 0x2000 <= n <= 0x200A
    || n == 0x2028 || n == 0x2029 || n == 0x202F || n == 0x205F || n == 0x3000
  }

  /** strings.TrimSpace */
  function Trim(s: string): string {
    if s == [] then []
    else if IsSpace(s[0]) then Trim(s[1..])
    else if IsSpace(s[|s| - 1]) then Trim(s[..|s| - 1])
    else s
  }

  function DigitValue(c: char): nat {
    if '0' <= c <= '9' then (c - '0') as nat
    else if 'a' <= c <= 'z' then (c - 'a') as nat + 10
    else if 'A' <= c <= 'Z' then (c - 'A') as nat + 10
    else 36
  }

  /** Digits of the given base with single underscores between them; `after` tells whether one may come first. */
  function ScanDigits(s: string, base: nat, after: bool, acc: nat): Option<nat> {
    if s == [] then (if after then Some(acc) else None)
    else if s[0] == '_' then (if after then ScanDigits(s[1..], base, false, acc) else None)
    else if DigitValue(s[0]) >= base then None
    else ScanDigits(s[1..], base, true, acc * base + DigitValue(s[0]))
  }

  /** The natural numbers of Go's integer syntax: decimal, or with a base prefix. */
  function ScanNat(s: string): Option<nat> {
    if s == [] then None
    else if s[0] != '0' || |s| == 1 then ScanDigits(s, 10, false, 0)
    else if s[1] in "xX" then (if |s| == 2 then None else ScanDigits(s[2..], 16, true, 0))
    else if s[1] in "oO" then (if |s| == 2 then None else ScanDigits(s[2..], 8, true, 0))
    else if s[1] in "bB" then (if |s| == 2 then None else ScanDigits(s[2..], 2, true, 0))
    else ScanDigits(s[1..], 8, true, 0)
  }

  /** big.Int.SetString with base 0. */
  function ScanInt(s: string): Option<int> {
    if s != [] && (s[0] == '-' || s[0] == '+') then
      match ScanNat(s[1..])
      case None => None
      case Some(n) =>
        var v: int := n;
        Some(if s[0] == '-' then -v else v)
    else
      match ScanNat(s)
      case None => None
      case Some(n) => Some(n)
  }

  // ---------- Printing ----------

  function Digits(n: nat): (s: string)
    ensures |s| > 0
  {
    if n < 10 then [(n as char) + '0'] else Digits(n / 10) + [((n % 10) as char) + '0']
  }

  function PrintComponent(c: nat): string {
    if c >= HARDENED then Digits(c - HARDENED) + "'" else Digits(c)
  }

  function Print(path: Path): string {
    if path == [] then "m" else Print(path[..|path| - 1]) + "/" + PrintComponent(path[|path| - 1])
  }

  method String(path: Path) returns (result: string)
    ensures result == Print(path)
  {
    result := "m";
    for i := 0 to |path|
      invariant result == Print(path[..i])
    {
      assert path[..i + 1][..i] == path[..i];
      var component, hardened := path[i], false;
      if component >= HARDENED {
        component := component - HARDENED;
        hardened := true;
      }
      result := result + "/" + Digits(component);
      if hardened {
        result := result + "'";
      }
    }
    assert path[..|path|] == path;
  }

  // ---------- Parsing ----------

  function ParseComponent(text: string): Result<nat, ParseError> {
    var c := Trim(text);
    var hard := |c| > 0 && c[|c| - 1] == '\'';
    var number := if hard then Trim(c[..|c| - 1]) else c;
    var base := if hard then HARDENED else 0;
    match ScanInt(number)
    case None => Err(InvalidComponent)
    case Some(v) => if v < 0 || v > MAX_UINT32 - base then Err(OutOfRange) else Ok(base + v)
  }

  /** The components one by one; the first bad one decides the error. */
  function ParseAll(parts: seq<string>): Result<Path, ParseError> {
    if parts == [] then Ok([])
    else
      match ParseAll(parts[..|parts| - 1])
      case Err(e) => Err(e)
      case Ok(front) =>
        match ParseComponent(parts[|parts| - 1])
        case Err(e) => Err(e)
        case Ok(v) => Ok(front + [v])
  }

  function Parse(text: string): Result<Path, ParseError> {
    var parts := Split(text, '/');
    var first := Trim(parts[0]);
    if first == "" then Err(AmbiguousPath)
    else if first == "m" then
      if |parts| == 1 then Err(EmptyPath) else ParseAll(parts[1..])
    else
      match ParseAll(parts)
      case Err(e) => Err(e)
      case Ok(path) => Ok(DEFAULT_ROOT + path)
  }

  method ParseDerivationPath(text: string) returns (r: Result<Path, ParseError>)
    ensures r == Parse(text)
  {
    var components := Split(text, '/');
    var root: Path := [];
    var first := Trim(components[0]);
    if first == "" {
      return Err(AmbiguousPath);
    }
    if first == "m" {
      components := components[1..];
    } else {
      root := DEFAULT_ROOT;
    }
    if |components| == 0 {
      return Err(EmptyPath);
    }
    var result: Path := [];
    for i := 0 to |components|
      invariant ParseAll(components[..i]) == Ok(result)
    {
      assert components[..i + 1][..i] == components[..i];
      var value := ParseComponent(components[i]);
      if value.Err? {
        FirstError(components, i + 1, value.error);
        return Err(value.error);
      }
      result := result + [value.value];
    }
    assert components[..|components|] == components;
    assert root == [] ==> root + result == result;
    return Ok(root + result);
  }

  lemma {:induction false} FirstError(parts: seq<string>, i: nat, e: ParseError)
    requires i <= |parts| && ParseAll(parts[..i]) == Err(e)
    ensures ParseAll(parts) == Err(e)
  {
    if i == |parts| {
      assert parts[..i] == parts;
    } else {
      var front := parts[..|parts| - 1];
      assert front[..i] == parts[..i];
      FirstError(front, i, e);
    }
  }

  // ---------- Round trip ----------

  predicate IsDigit(c: char) {
    '0' <= c <= '9'
  }

  ghost predicate AllDigits(s: string) {
    forall i :: 0 <= i < |s| ==> IsDigit(s[i])
  }

  lemma DigitFacts(d: nat)
    requires d < 10
    ensures IsDigit((d as char) + '0') && DigitValue((d as char) + '0') == d
  {
  }

  lemma {:induction false} DigitsAreDigits(n: nat)
    ensures AllDigits(Digits(n)) && (n > 0 ==> Digits(n)[0] != '0') && (n == 0 ==> Digits(n) == "0")
  {
    DigitFacts(n % 10);
    if n >= 10 {
      DigitsAreDigits(n / 10);
    }
  }

  /** Reading decimal digits from the left. */
  function Value(s: string): nat {
    if s == [] then 0 else Value(s[..|s| - 1]) * 10 + DigitValue(s[|s| - 1])
  }

  lemma {:induction false} ValueOfDigits(n: nat)
    ensures Value(Digits(n)) == n
  {
    DigitFacts(n % 10);
    var s := Digits(n);
    if n < 10 {
      assert s[..0] == [] && Value(s[..0]) == 0;
    } else {
      ValueOfDigits(n / 10);
      assert s[..|s| - 1] == Digits(n / 10);
    }
  }

  lemma {:induction false} ScanIsValue(s: string, k: nat)
    requires AllDigits(s) && k <= |s|
    ensures ScanDigits(s[k..], 10, k > 0, Value(s[..k])) == if |s| > 0 then Some(Value(s)) else None
    decreases |s| - k
  {
    if k < |s| {
      assert s[k..][0] == s[k] && s[k..][1..] == s[k + 1..];
      assert s[..k + 1][..k] == s[..k];
      ScanIsValue(s, k + 1);
    } else {
      assert s[k..] == [] && s[..k] == s;
    }
  }

  lemma ScanPrinted(n: nat)
    ensures ScanInt(Digits(n)) == Some(n)
  {
    var s := Digits(n);
    DigitsAreDigits(n);
    ValueOfDigits(n);
    ScanIsValue(s, 0);
    assert s[0..] == s && s[..0] == [];
    assert IsDigit(s[0]);
  }

  lemma TrimKeeps(s: string)
    requires |s| > 0 && !IsSpace(s[0]) && !IsSpace(s[|s| - 1])
    ensures Trim(s) == s
  {
  }

  /** A printed component reads back as itself. */
  lemma ComponentRoundTrip(c: nat)
    requires c <= MAX_UINT32
    ensures ParseComponent(PrintComponent(c)) == Ok(c)
  {
    var hard := c >= HARDENED;
    var n := if hard then c - HARDENED else c;
    var digits := Digits(n);
    DigitsAreDigits(n);
    assert IsDigit(digits[0]) && IsDigit(digits[|digits| - 1]);
    var text := PrintComponent(c);
    TrimKeeps(text);
    TrimKeeps(digits);
    if hard {
      assert text[..|text| - 1] == digits;
    }
    ScanPrinted(n);
  }

  lemma NoSlash(c: nat)
    ensures '/' !in PrintComponent(c)
  {
    DigitsAreDigits(if c >= HARDENED then c - HARDENED else c);
  }

  /** A last piece without separator is split off whole. */
  lemma {:induction false} SplitLast(s: string, last: string)
    requires '/' !in last
    ensures Split(s + "/" + last, '/') == Split(s, '/') + [last]
  {
    var all := s + "/" + last;
    if s == [] {
      assert all[1..] == last;
      SplitOne(last);
    } else {
      assert all[1..] == s[1..] + "/" + last;
      SplitLast(s[1..], last);
    }
  }

  lemma {:induction false} SplitOne(s: string)
    requires '/' !in s
    ensures Split(s, '/') == [s]
  {
    if s != [] {
      SplitOne(s[1..]);
      assert s == [s[0]] + s[1..];
    }
  }

  function Texts(path: Path): seq<string> {
    seq(|path|, i requires 0 <= i < |path| => PrintComponent(path[i]))
  }

  lemma {:induction false} SplitPrinted(path: Path)
    ensures Split(Print(path), '/') == ["m"] + Texts(path)
  {
    if path == [] {
      SplitOne("m");
    } else {
      var k := |path| - 1;
      SplitPrinted(path[..k]);
      NoSlash(path[k]);
      SplitLast(Print(path[..k]), PrintComponent(path[k]));
      hide Split, PrintComponent;
      assert Texts(path) == Texts(path[..k]) + [PrintComponent(path[k])];
      assert ["m"] + Texts(path) == ["m"] + Texts(path[..k]) + [PrintComponent(path[k])];
    }
  }

  ghost predicate Fits(path: Path) {
    forall i :: 0 <= i < |path| ==> path[i] <= MAX_UINT32
  }

  lemma {:induction false} ParseTexts(path: Path)
    requires Fits(path)
    ensures ParseAll(Texts(path)) == Ok(path)
  {
    hide ParseComponent, PrintComponent;
    if path != [] {
      var k := |path| - 1;
      ParseTexts(path[..k]);
      assert Texts(path)[..k] == Texts(path[..k]) && Texts(path)[k] == PrintComponent(path[k]);
      ComponentRoundTrip(path[k]);
      assert path == path[..k] + [path[k]];
    }
  }

  /** Every non-empty path of 32-bit components is read back from its printed form; the empty one is refused. */
  lemma RoundTrip(path: Path)
    requires Fits(path)
    ensures Parse(Print(path)) == if path == [] then Err(EmptyPath) else Ok(path)
  {
    SplitPrinted(path);
    TrimKeeps("m");
    ParseTexts(path);
    assert (["m"] + Texts(path))[1..] == Texts(path);
  }

  lemma PrintInjective(p: Path, q: Path)
    requires Fits(p) && Fits(q) && Print(p) == Print(q)
    ensures p == q
  {
    RoundTrip(p);
    RoundTrip(q);
  }

  lemma {:induction false} ParsedFits(parts: seq<string>)
    ensures ParseAll(parts).Ok? ==> |ParseAll(parts).value| == |parts| && Fits(ParseAll(parts).value)
  {
    if parts != [] {
      ParsedFits(parts[..|parts| - 1]);
    }
  }

  /** Whatever was parsed, its printed form parses to the same path. */
  lemma ParsePrintParse(text: string)
    requires Parse(text).Ok?
    ensures Parse(Print(Parse(text).value)) == Parse(text)
  {
    var parts := Split(text, '/');
    ParsedFits(parts);
    ParsedFits(parts[1..]);
    RoundTrip(Parse(text).value);
  }
}
