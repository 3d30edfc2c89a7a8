/** The name of the genesis state file: its printer (genesis/storage.go), its parser and the
    directory scan (genesis/initialize.go). */
module GenesisName {
  import opened Options

  const TWO_TO_63: int := 0x8000_0000_0000_0000

  type Byte = b: nat | b < 256

  datatype GenesisData = GenesisData(validatorsRoot: seq<Byte>, time: int)

  /** A 32-byte root and a signed 64-bit Unix time. */
  predicate Representable(d: GenesisData) {
    |d.validatorsRoot| == 32 && 0 - TWO_TO_63 <= d.time < TWO_TO_63
  }

  // ------------------------------------------------------------ strings.Split

  function Split(s: string, sep: char): (r: seq<string>)
    ensures r != []
  {
    if s == "" then [""]
    else
      var r := Split(s[1..], sep);
      if s[0] == sep then [""] + r else [[s[0]] + r[0]] + r[1..]
  }

  function Join(parts: seq<string>, sep: char): string
    requires parts != []
  {
    if |parts| == 1 then parts[0] else parts[0] + [sep] + Join(parts[1..], sep)
  }

  lemma {:induction false} SplitOne(p: string, sep: char)
    requires sep !in p
    ensures Split(p, sep) == [p]
  {
    if p != "" {
      SplitOne(p[1..], sep);
      assert [p[0]] + p[1..] == p;
    }
  }

  lemma {:induction false} SplitFirst(p: string, rest: string, sep: char)
    requires sep !in p
    ensures Split(p + [sep] + rest, sep) == [p] + Split(rest, sep)
  {
    var s := p + [sep] + rest;
    if p == "" {
      assert s[1..] == rest;
    } else {
      assert s[1..] == p[1..] + [sep] + rest;
      SplitFirst(p[1..], rest, sep);
      assert [p[0]] + p[1..] == p;
      var r := Split(rest, sep);
      assert ([p[1..]] + r)[1..] == r;
    }
  }

  /** Splitting undoes joining of parts without the separator. */
  lemma {:induction false} SplitJoin(parts: seq<string>, sep: char)
    requires parts != [] && forall i :: 0 <= i < |parts| ==> sep !in parts[i]
    ensures Split(Join(parts, sep), sep) == parts
  {
    if |parts| == 1 {
      SplitOne(parts[0], sep);
    } else {
      SplitJoin(parts[1..], sep);
      SplitFirst(parts[0], Join(parts[1..], sep), sep);
    }
  }

  // ------------------------------------------------------------ numbers

  function Digit(n: nat): (c: char)
    requires n < 16
    ensures if n < 10 then '0' <= c <= '9' else 'a' <= c <= 'f'
  {
    if n < 10 then (48 + n) as char else (87 + n) as char
  }

  function DigitOf(c: char): Option<nat> {
    if '0' <= c <= '9' then Some(c as int - 48)
    else if 'a' <= c <= 'f' then Some(c as int - 87)
    else if 'A' <= c <= 'F' then Some(c as int - 55)
    else None
  }

  function Decimal(n: nat): string {
    if n < 10 then [Digit(n)] else Decimal(n / 10) + [Digit(n % 10)]
  }

  /** strconv.FormatInt in base 10 */
  function FormatInt(t: int): string {
    if t < 0 then "-" + Decimal(-t) else Decimal(t)
  }

  function ParseDigits(s: string): Option<nat> {
    if s == "" then None
    else
      var n := |s| - 1;
      var last := DigitOf(s[n]);
      if last.None? || last.value >= 10 then None
      else if n == 0 then last
      else match ParseDigits(s[..n])
        case None => None
        case Some(front) => Some(10 * front + last.value)
  }

  /** strconv.ParseInt in base 10 for 64 bits */
  function ParseInt(s: string): Option<int> {
    if s == "" then None
    else
      var negative := s[0] == '-';
      match ParseDigits(if negative || s[0] == '+' then s[1..] else s)
      case None => None
      case Some(n) =>
        if !negative && n >= TWO_TO_63 then None
        else if negative && n > TWO_TO_63 then None
        else Some(if negative then 0 - n else n)
  }

  lemma {:induction false} DecimalDigits(n: nat)
    ensures Decimal(n) != "" && '-' !in Decimal(n) && '.' !in Decimal(n) && '+' !in Decimal(n)
    ensures ParseDigits(Decimal(n)) == Some(n)
  {
    if n >= 10 {
      DecimalDigits(n / 10);
      var s := Decimal(n);
      assert s[..|s| - 1] == Decimal(n / 10);
    }
  }

  lemma FormatIntParses(t: int)
    requires 0 - TWO_TO_63 <= t < TWO_TO_63
    ensures ParseInt(FormatInt(t)) == Some(t)
  {
    var n := if t < 0 then -t else t;
    DecimalDigits(n);
    assert t < 0 ==> FormatInt(t)[1..] == Decimal(n);
    assert t >= 0 ==> FormatInt(t)[0] in Decimal(n);
  }

  // ------------------------------------------------------------ hexutil

  function EncodeBytes(b: seq<Byte>): string {
    if b == [] then "" else [Digit(b[0] / 16), Digit(b[0] % 16)] + EncodeBytes(b[1..])
  }

  /** hexutil.Encode */
  function EncodeHex(b: seq<Byte>): string {
    "0x" + EncodeBytes(b)
  }

  function DecodeBytes(s: string): Option<seq<Byte>>
    requires |s| % 2 == 0
  {
    if s == "" then Some([])
    else
      var high, low, rest := DigitOf(s[0]), DigitOf(s[1]), DecodeBytes(s[2..]);
      if high.None? || low.None? || rest.None? then None
      else Some([16 * high.value + low.value] + rest.value)
  }

  /** hexutil.UnmarshalFixedText into 32 bytes */
  function UnmarshalRoot(s: string): Option<seq<Byte>> {
    if |s| < 2 || s[0] != '0' || (s[1] != 'x' && s[1] != 'X') then None
    else if |s| % 2 != 0 || |s| - 2 != 64 then None
    else DecodeBytes(s[2..])
  }

  lemma {:induction false} EncodeBytesDecodes(b: seq<Byte>)
    ensures |EncodeBytes(b)| == 2 * |b| && '-' !in EncodeBytes(b) && '.' !in EncodeBytes(b)
    ensures DecodeBytes(EncodeBytes(b)) == Some(b)
  {
    if b != [] {
      EncodeBytesDecodes(b[1..]);
      var s := EncodeBytes(b);
      assert s[2..] == EncodeBytes(b[1..]);
      DigitRoundTrip(b[0] / 16);
      DigitRoundTrip(b[0] % 16);
      assert 16 * (b[0] / 16) + b[0] % 16 == b[0];
      assert [b[0]] + b[1..] == b;
    }
  }

  lemma DigitRoundTrip(n: nat)
    requires n < 16
    ensures DigitOf(Digit(n)) == Some(n)
  {
  }

  // ------------------------------------------------------------ file names

  /** The file name within GenesisData.filePath */
  function FileName(d: GenesisData): string {
    Join(["genesis", FormatInt(d.time), EncodeHex(d.validatorsRoot)], '-') + ".ssz"
  }

  datatype DirEntry = DirEntry(name: string, isDir: bool)

  /** tryParseFname */
  function TryParse(f: DirEntry): Option<GenesisData> {
    if f.isDir then None
    else
      var extParts := Split(f.name, '.');
      if |extParts| != 2 || extParts[1] != "ssz" then None
      else
        var parts := Split(extParts[0], '-');
        if |parts| != 3 || parts[0] != "genesis" then None
        else
          var ts, root := ParseInt(parts[1]), UnmarshalRoot(parts[2]);
          if ts.None? || ts.value < 0 || root.None? then None
          else Some(GenesisData(root.value, ts.value))
  }

  /** The dash-separated parts of a printed name: four of them if the time is negative. */
  function Parts(d: GenesisData): seq<string> {
    if d.time < 0 then ["genesis", "", Decimal(-d.time), EncodeHex(d.validatorsRoot)]
    else ["genesis", Decimal(d.time), EncodeHex(d.validatorsRoot)]
  }

  lemma JoinThree(a: string, b: string, c: string, sep: char)
    ensures Join([a, b, c], sep) == a + [sep] + (b + [sep] + c)
  {
    assert [a, b, c][1..] == [b, c] && [b, c][1..] == [c];
    assert Join([b, c], sep) == b + [sep] + c;
  }

  lemma NameOfParts(d: GenesisData)
    ensures FileName(d) == Join(Parts(d), '-') + "." + "ssz"
  {
    var root := EncodeHex(d.validatorsRoot);
    JoinThree("genesis", FormatInt(d.time), root, '-');
    if d.time < 0 {
      var time := Decimal(-d.time);
      JoinThree("", time, root, '-');
      assert Parts(d)[1..] == ["", time, root];
      assert "" + "-" + (time + "-" + root) == FormatInt(d.time) + "-" + root;
    }
  }

  lemma {:induction false} JoinAvoids(parts: seq<string>, sep: char, c: char)
    requires parts != [] && c != sep && forall i :: 0 <= i < |parts| ==> c !in parts[i]
    ensures c !in Join(parts, sep)
  {
    if |parts| > 1 {
      JoinAvoids(parts[1..], sep, c);
    }
  }

  lemma PartsAvoid(d: GenesisData)
    ensures forall i :: 0 <= i < |Parts(d)| ==> '-' !in Parts(d)[i] && '.' !in Parts(d)[i]
  {
    DecimalDigits(if d.time < 0 then -d.time else d.time);
    EncodeBytesDecodes(d.validatorsRoot);
  }

  lemma PrintedSplits(d: GenesisData)
    ensures Split(FileName(d), '.') == [Join(Parts(d), '-'), "ssz"]
    ensures Split(Join(Parts(d), '-'), '-') == Parts(d)
  {
    PartsAvoid(d);
    SplitJoin(Parts(d), '-');
    JoinAvoids(Parts(d), '-', '.');
    NameOfParts(d);
    SplitFirst(Join(Parts(d), '-'), "ssz", '.');
    SplitOne("ssz", '.');
  }

  /** Parsing a printed name recovers time and root exactly when the time is not negative. */
  lemma RoundTrip(d: GenesisData)
    requires Representable(d)
    ensures TryParse(DirEntry(FileName(d), false)) == if d.time >= 0 then Some(d) else None
  {
    PrintedSplits(d);
    if d.time >= 0 {
      FormatIntParses(d.time);
      EncodeBytesDecodes(d.validatorsRoot);
      assert EncodeHex(d.validatorsRoot)[2..] == EncodeBytes(d.validatorsRoot);
    }
  }

  /** The name of a file for one second before 1970 does not parse. */
  lemma NegativeTimeDoesNotParse(root: seq<Byte>)
    requires |root| == 32
    ensures Parts(GenesisData(root, -1)) == ["genesis", "", "1", EncodeHex(root)]
    ensures TryParse(DirEntry(FileName(GenesisData(root, -1)), false)) == None
  {
    RoundTrip(GenesisData(root, -1));
  }

  /** Distinct genesis data have distinct names. */
  lemma NamesInjective(d: GenesisData, e: GenesisData)
    requires FileName(d) == FileName(e)
    ensures d == e
  {
    PrintedSplits(d);
    PrintedSplits(e);
    assert Parts(d) == Parts(e);
    assert |Parts(d)| == |Parts(e)|;
    var n, m := if d.time < 0 then -d.time else d.time, if e.time < 0 then -e.time else e.time;
    var last := |Parts(d)| - 1;
    assert Parts(d)[last - 1] == Decimal(n) && Parts(e)[last - 1] == Decimal(m);
    DecimalDigits(n);
    DecimalDigits(m);
    assert Parts(d)[last] == EncodeHex(d.validatorsRoot) && Parts(e)[last] == EncodeHex(e.validatorsRoot);
    assert EncodeHex(d.validatorsRoot)[2..] == EncodeBytes(d.validatorsRoot);
    assert EncodeHex(e.validatorsRoot)[2..] == EncodeBytes(e.validatorsRoot);
    EncodeBytesDecodes(d.validatorsRoot);
    EncodeBytesDecodes(e.validatorsRoot);
  }

  // ------------------------------------------------------------ which names parse

  /** Joining undoes splitting. */
  lemma {:induction false} JoinSplit(s: string, sep: char)
    ensures Join(Split(s, sep), sep) == s
    ensures forall i :: 0 <= i < |Split(s, sep)| ==> sep !in Split(s, sep)[i]
  {
    if s != "" {
      JoinSplit(s[1..], sep);
      var r := Split(s[1..], sep);
      assert s == [s[0]] + s[1..];
      if s[0] == sep {
        assert ([""] + r)[1..] == r;
      } else {
        JoinFront(s[0], r, sep);
      }
    }
  }

  lemma JoinFront(c: char, r: seq<string>, sep: char)
    requires r != []
    ensures Join([[c] + r[0]] + r[1..], sep) == [c] + Join(r, sep)
  {
    var r' := [[c] + r[0]] + r[1..];
    assert r'[1..] == r[1..];
    if |r| > 1 {
      assert [c] + r[0] + [sep] + Join(r[1..], sep) == [c] + (r[0] + [sep] + Join(r[1..], sep));
    }
  }

  function Zeros(k: nat): (s: string)
    ensures |s| == k
  {
    seq(k, i => '0')
  }

  lemma {:induction false} ZerosParse(k: nat, s: string)
    requires ParseDigits(s).Some?
    ensures ParseDigits(Zeros(k) + s) == ParseDigits(s)
    decreases k, |s|
  {
    var t, n := Zeros(k) + s, |s| - 1;
    if k > 0 {
      assert t[|t| - 1] == s[n];
      if n > 0 {
        ZerosParse(k, s[..n]);
        assert t[..|t| - 1] == Zeros(k) + s[..n];
      } else {
        assert t[..|t| - 1] == Zeros(k - 1) + "0";
        assert "0"[0] == '0' && ParseDigits("0") == Some(0);
        ZerosParse(k - 1, "0");
      }
    } else {
      assert t == s;
    }
  }

  /** One more digit after a number and the zeros in front of it. */
  lemma DigitAppended(k: nat, front: nat, last: nat) returns (k': nat)
    requires last < 10
    ensures Zeros(k) + Decimal(front) + [Digit(last)] == Zeros(k') + Decimal(10 * front + last)
  {
    if front == 0 {
      k' := k + 1;
      assert Zeros(k) + Decimal(0) == Zeros(k');
    } else {
      k' := k;
      assert (10 * front + last) / 10 == front && (10 * front + last) % 10 == last;
    }
  }

  /** Any number of zeros and a number's own digits are what parses to it. */
  lemma {:induction false} DigitsParsed(s: string) returns (k: nat)
    requires ParseDigits(s).Some?
    ensures s == Zeros(k) + Decimal(ParseDigits(s).value)
  {
    var n := |s| - 1;
    DigitOfIsDigit(s[n], DigitOf(s[n]).value);
    assert s == s[..n] + [s[n]];
    k := 0;
    if n > 0 {
      k := DigitsParsed(s[..n]);
      k := DigitAppended(k, ParseDigits(s[..n]).value, DigitOf(s[n]).value);
    }
  }

  function Lower(c: char): char {
    if 'A' <= c <= 'F' then (c as int + 32) as char else c
  }

  function LowerAll(s: string): string {
    seq(|s|, i requires 0 <= i < |s| => Lower(s[i]))
  }

  lemma DigitOfIsDigit(c: char, n: nat)
    ensures DigitOf(c) == Some(n) <==> n < 16 && Lower(c) == Digit(n)
  {
  }

  /** Decoding undoes encoding, and accepts upper-case digits besides. */
  lemma {:induction false} DecodesExactly(s: string, b: seq<Byte>)
    requires |s| % 2 == 0
    ensures DecodeBytes(s) == Some(b) <==> LowerAll(s) == EncodeBytes(b)
  {
    EncodeBytesDecodes(b);
    if s != "" && b != [] {
      DecodesExactly(s[2..], b[1..]);
      DigitOfIsDigit(s[0], b[0] / 16);
      DigitOfIsDigit(s[1], b[0] % 16);
      DecodesHead(s, b);
      EncodesHead(s, b);
    }
  }

  lemma DecodesHead(s: string, b: seq<Byte>)
    requires |s| % 2 == 0 && s != "" && b != []
    ensures DecodeBytes(s) == Some(b) <==>
      && DigitOf(s[0]) == Some(b[0] / 16) && DigitOf(s[1]) == Some(b[0] % 16) && DecodeBytes(s[2..]) == Some(b[1..])
  {
    var high, low, rest := DigitOf(s[0]), DigitOf(s[1]), DecodeBytes(s[2..]);
    if high.Some? && low.Some? && rest.Some? {
      var first := 16 * high.value + low.value;
      assert first / 16 == high.value && first % 16 == low.value;
      assert [b[0]] + b[1..] == b;
      assert ([first] + rest.value)[0] == first && ([first] + rest.value)[1..] == rest.value;
    }
  }

  lemma EncodesHead(s: string, b: seq<Byte>)
    requires |s| % 2 == 0 && s != "" && b != []
    ensures LowerAll(s) == EncodeBytes(b) <==>
      && Lower(s[0]) == Digit(b[0] / 16) && Lower(s[1]) == Digit(b[0] % 16) && LowerAll(s[2..]) == EncodeBytes(b[1..])
  {
    var rest := EncodeBytes(b[1..]);
    assert LowerAll(s) == [Lower(s[0]), Lower(s[1])] + LowerAll(s[2..]);
    assert LowerAll(s)[2..] == LowerAll(s[2..]) && EncodeBytes(b)[2..] == rest;
  }

  /** A 0x prefix and the hexadecimal digits of the root, in either case. */
  predicate HexOf(hex: string, root: seq<Byte>) {
    |hex| == 66 && hex[0] == '0' && hex[1] in "xX" && LowerAll(hex[2..]) == EncodeBytes(root)
  }

  lemma HexUnmarshals(hex: string, root: seq<Byte>)
    ensures UnmarshalRoot(hex) == Some(root) <==> HexOf(hex, root)
    ensures HexOf(hex, root) ==> '-' !in hex && '.' !in hex
  {
    if |hex| == 66 {
      DecodesExactly(hex[2..], root);
      EncodeBytesDecodes(root);
      if HexOf(hex, root) {
        forall i | 2 <= i < |hex| ensures hex[i] != '-' && hex[i] != '.' {
          assert LowerAll(hex[2..])[i - 2] == Lower(hex[i]);
          assert LowerAll(hex[2..])[i - 2] in EncodeBytes(root);
        }
      }
    }
  }

  /** A time as it may be written: with a plus sign, and with zeros in front. */
  function TimeText(plus: bool, k: nat, time: nat): string {
    (if plus then "+" else "") + (Zeros(k) + Decimal(time))
  }

  lemma TimeTextParses(plus: bool, k: nat, time: nat)
    requires time < TWO_TO_63
    ensures ParseInt(TimeText(plus, k, time)) == Some(time)
    ensures '-' !in TimeText(plus, k, time) && '.' !in TimeText(plus, k, time)
  {
    DecimalDigits(time);
    ZerosParse(k, Decimal(time));
    PlusParses(Zeros(k) + Decimal(time), time);
    assert !plus ==> TimeText(plus, k, time) == Zeros(k) + Decimal(time);
  }

  lemma PlusParses(digits: string, time: nat)
    requires digits != "" && '-' !in digits && '+' !in digits && ParseDigits(digits) == Some(time) && time < TWO_TO_63
    ensures ParseInt(digits) == Some(time) && ParseInt("+" + digits) == Some(time)
  {
    assert digits[0] in digits;
    assert ("+" + digits)[1..] == digits;
  }

  lemma TimeTextOf(text: string) returns (plus: bool, k: nat)
    requires ParseInt(text).Some? && '-' !in text
    ensures 0 <= ParseInt(text).value < TWO_TO_63 && text == TimeText(plus, k, ParseInt(text).value)
  {
    assert text[0] in text;
    plus := text[0] == '+';
    var digits := if plus then text[1..] else text;
    k := DigitsParsed(digits);
    assert text == (if plus then "+" else "") + digits;
  }

  /** A name of three parts before its extension. */
  function NameOf(time: string, hex: string): string {
    Join(["genesis", time, hex], '-') + "." + "ssz"
  }

  lemma NameSplits(time: string, hex: string)
    requires '-' !in time && '.' !in time && '-' !in hex && '.' !in hex
    ensures Split(NameOf(time, hex), '.') == [Join(["genesis", time, hex], '-'), "ssz"]
    ensures Split(Join(["genesis", time, hex], '-'), '-') == ["genesis", time, hex]
  {
    var parts := ["genesis", time, hex];
    SplitJoin(parts, '-');
    JoinAvoids(parts, '-', '.');
    SplitFirst(Join(parts, '-'), "ssz", '.');
    SplitOne("ssz", '.');
  }

  lemma ParsedName(f: DirEntry) returns (plus: bool, k: nat, hex: string)
    requires TryParse(f).Some?
    ensures var d := TryParse(f).value;
      && !f.isDir && 0 <= d.time < TWO_TO_63
      && f.name == NameOf(TimeText(plus, k, d.time), hex) && HexOf(hex, d.validatorsRoot)
  {
    var extParts := Split(f.name, '.');
    JoinSplit(f.name, '.');
    assert extParts[1..] == ["ssz"];
    var parts := Split(extParts[0], '-');
    JoinSplit(extParts[0], '-');
    assert parts == ["genesis", parts[1], parts[2]];
    plus, k := TimeTextOf(parts[1]);
    hex := parts[2];
    HexUnmarshals(hex, TryParse(f).value.validatorsRoot);
  }

  lemma NameParses(plus: bool, k: nat, d: GenesisData, hex: string)
    requires 0 <= d.time < TWO_TO_63 && HexOf(hex, d.validatorsRoot)
    ensures TryParse(DirEntry(NameOf(TimeText(plus, k, d.time), hex), false)) == Some(d)
  {
    TimeTextParses(plus, k, d.time);
    HexUnmarshals(hex, d.validatorsRoot);
    NameSplits(TimeText(plus, k, d.time), hex);
  }

  /** The names that parse are those of files, with any number of zeros before the time, possibly a
      plus sign, and a root in either case. */
  lemma ParsesExactly(f: DirEntry, d: GenesisData)
    ensures TryParse(f) == Some(d) <==>
      && !f.isDir && 0 <= d.time < TWO_TO_63
      && exists plus: bool, k: nat, hex: string :: f.name == NameOf(TimeText(plus, k, d.time), hex) && HexOf(hex, d.validatorsRoot)
  {
    if TryParse(f) == Some(d) {
      var plus, k, hex := ParsedName(f);
    }
    if !f.isDir && 0 <= d.time < TWO_TO_63 {
      forall plus: bool, k: nat, hex: string | f.name == NameOf(TimeText(plus, k, d.time), hex) && HexOf(hex, d.validatorsRoot)
        ensures TryParse(f) == Some(d)
      {
        NameParses(plus, k, d, hex);
      }
    }
  }

  // ------------------------------------------------------------ the scan

  function FirstParsing(files: seq<DirEntry>): Option<GenesisData> {
    if files == [] then None
    else if TryParse(files[0]).Some? then TryParse(files[0])
    else FirstParsing(files[1..])
  }

  /** findGenesisFile, given what os.ReadDir returns. */
  method FindGenesisFile(dir: string, files: Option<seq<DirEntry>>) returns (r: Option<GenesisData>)
    ensures r == if dir == "" || files.None? then None else FirstParsing(files.value)
  {
    if dir == "" {
      return None;
    }
    if files.None? {
      return None;
    }
    for i := 0 to |files.value|
      invariant FirstParsing(files.value) == FirstParsing(files.value[i..])
    {
      var gd := TryParse(files.value[i]);
      if gd.None? {
        continue;
      }
      return gd;
    }
    return None;
  }

  /** A stored file is found again when no other name in the directory parses. */
  lemma {:induction false} StoredIsFound(files: seq<DirEntry>, d: GenesisData)
    requires Representable(d) && d.time >= 0
    requires DirEntry(FileName(d), false) in files
    requires forall i :: 0 <= i < |files| && files[i].name != FileName(d) ==> TryParse(files[i]).None?
    ensures FirstParsing(files) == Some(d)
  {
    RoundTrip(d);
    if files[0] != DirEntry(FileName(d), false) {
      assert TryParse(files[0]).None?;
      StoredIsFound(files[1..], d);
    }
  }
}
