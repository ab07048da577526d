/** The test-fixture charts of tests/charts.go: a chart under test carries
    its name, version and appVersion, which the tests change in place; a
    session key, random unless given, keeps the names of one test run apart
    from every other. The random bytes are an input. */
module TestCharts {
  import opened Options

  const OriginalVersion: string := "0.1.1"
  const OriginalAppVersion: string := "1.16.0"
  const RandomSuffixLength: nat := 8
  /** The length of a generated session key. */
  const SessionKeyLength: nat := 10

  const MyChartName: string := "dagger-module-helm-test"
  const MyChartDir: string := "./testdata/mychart/"
  const MyChartTemplate: string :=
    "\napiVersion: v2\nname: {{ .Name }}\ndescription: A Helm chart\ntype: application\n"
    + "version: {{ .Version }}\nappVersion: \"{{ .AppVersion }}\"\n"
  const MyDependentChartName: string := "dagger-module-helm-test-with-dependency"
  const MyDependentChartDir: string := "./testdata/mydependentchart/"
  const MyDependentChartTemplate: string :=
    MyChartTemplate
    + "\ndependencies:\n  - name: dependency-track\n    version: 1.8.1\n"
    + "    repository:  https://puzzle.github.io/dependencytrack-helm/\n"

  newtype byte = x: int | 0 <= x < 256

  /** One lowercase hexadecimal digit. */
  function HexDigit(d: int): char
    requires 0 <= d < 16
  {
    if d < 10 then ('0' as int + d) as char else ('a' as int + d - 10) as char
  }

  predicate IsHexDigit(c: char) {
    '0' <= c <= '9' || 'a' <= c <= 'f'
  }

  predicate IsLowerHex(s: string) {
    forall i :: 0 <= i < |s| ==> IsHexDigit(s[i])
  }

  /** The value of a hexadecimal digit. */
  function DigitValue(c: char): int {
    if '0' <= c <= '9' then c as int - '0' as int
    else if 'a' <= c <= 'f' then c as int - 'a' as int + 10
    else 0
  }

  /** `fmt.Sprintf("%x", b)`: two lowercase digits per byte, high digit
      first. */
  function Hex(b: seq<byte>): (r: string)
    ensures |r| == 2 * |b|
  {
    if b == [] then []
    else [HexDigit(b[0] as int / 16), HexDigit(b[0] as int % 16)] + Hex(b[1..])
  }

  /** Reads bytes back from pairs of hexadecimal digits. */
  function Unhex(s: string): seq<byte>
    requires |s| % 2 == 0
  {
    if s == [] then []
    else
      var v := 16 * DigitValue(s[0]) + DigitValue(s[1]);
      [if 0 <= v < 256 then v as byte else 0] + Unhex(s[2..])
  }

  lemma {:induction false} HexIsLowerHex(b: seq<byte>)
    ensures IsLowerHex(Hex(b))
  {
    if b != [] {
      HexIsLowerHex(b[1..]);
      var r := Hex(b);
      assert forall i :: 2 <= i < |r| ==> r[i] == Hex(b[1..])[i - 2];
    }
  }

  /** Hex encoding loses nothing. */
  lemma {:induction false} UnhexHex(b: seq<byte>)
    ensures Unhex(Hex(b)) == b
  {
    if b != [] {
      UnhexHex(b[1..]);
      assert Hex(b)[2..] == Hex(b[1..]);
    }
  }

  /** The encoding of a prefix is the prefix of the encoding. */
  lemma {:induction false} HexPrefix(b: seq<byte>, k: nat)
    requires k <= |b|
    ensures Hex(b)[..2 * k] == Hex(b[..k])
  {
    if k > 0 {
      HexPrefix(b[1..], k - 1);
      assert b[..k][1..] == b[1..][..k - 1];
      assert Hex(b)[..2 * k] == Hex(b)[..2] + Hex(b)[2..][..2 * (k - 1)];
    }
  }

  /** `RandomString`: `length + 2` random bytes in lowercase hex, with the
      first two digits dropped and the rest cut to `length`. A negative
      length makes Go's `make` panic: `None`. */
  function RandomString(length: int, entropy: seq<byte>): (r: Option<string>)
    requires length >= 0 ==> |entropy| == length + 2
    ensures r.None? <==> length < 0
    ensures r.Some? ==> |r.value| == length
  {
    if length < 0 then None else Some(Hex(entropy)[2..length + 2])
  }

  /** The random string is lowercase hex of the bytes after the first: its
      first `length` digits, so with an even length it decodes to exactly
      the bytes `1 .. length / 2` and the rest of the input is unused. */
  lemma RandomStringDigits(length: nat, entropy: seq<byte>)
    requires |entropy| == length + 2
    ensures RandomString(length, entropy).value == Hex(entropy[1..])[..length]
    ensures IsLowerHex(RandomString(length, entropy).value)
    ensures length % 2 == 0 ==> Unhex(RandomString(length, entropy).value) == entropy[1..1 + length / 2]
  {
    var r := RandomString(length, entropy).value;
    assert Hex(entropy)[2..] == Hex(entropy[1..]);
    assert r == Hex(entropy[1..])[..length];
    HexIsLowerHex(entropy[1..]);
    assert forall i :: 0 <= i < |r| ==> r[i] == Hex(entropy[1..])[i];
    if length % 2 == 0 {
      HexPrefix(entropy[1..], length / 2);
      UnhexHex(entropy[1..][..length / 2]);
      assert entropy[1..][..length / 2] == entropy[1..1 + length / 2];
    }
  }

  /** The session key `newChart` uses: the given one verbatim, or a fresh
      random one when none is given. */
  function SessionKeyOf(sessionKey: string, entropy: seq<byte>): (r: string)
    requires sessionKey == "" ==> |entropy| == SessionKeyLength + 2
    ensures r == sessionKey <==> sessionKey != ""
    ensures sessionKey == "" ==> |r| == SessionKeyLength && IsLowerHex(r)
  {
    if sessionKey != "" then sessionKey
    else
      RandomStringDigits(SessionKeyLength, entropy);
      RandomString(SessionKeyLength, entropy).value
  }

  /** The name of a chart in a session: the base name, a dash and the
      key. Two keys give the same name only if they are equal. */
  function SessionName(base: string, sessionKey: string): (r: string)
    ensures |r| == |base| + 1 + |sessionKey| && r[..|base|] == base
  {
    base + "-" + sessionKey
  }

  lemma SessionNameInjective(base: string, k1: string, k2: string)
    ensures SessionName(base, k1) == SessionName(base, k2) <==> k1 == k2
  {
    if SessionName(base, k1) == SessionName(base, k2) {
      assert SessionName(base, k1)[|base| + 1..] == k1;
      assert SessionName(base, k2)[|base| + 1..] == k2;
    }
  }

  /** A test chart. Its rendered directory and template object are not
      part of the model: the template is kept as its text. */
  class Chart {
    var name: string
    var version: string
    var appVersion: string
    var directory: string
    var templateText: string
    var sessionKey: string

    /** `newChart`: the session key is the given one or a random one, and
        the name is the base name with the key appended. */
    constructor (base: string, directory: string, templateText: string, version: string,
                 appVersion: string, sessionKey: string, entropy: seq<byte>)
      requires sessionKey == "" ==> |entropy| == SessionKeyLength + 2
      ensures this.sessionKey == SessionKeyOf(sessionKey, entropy)
      ensures this.name == SessionName(base, this.sessionKey)
      ensures this.version == version && this.appVersion == appVersion
      ensures this.directory == directory && this.templateText == templateText
    {
      var ourSessionKey := sessionKey;
      if ourSessionKey == "" {
        ourSessionKey := RandomString(SessionKeyLength, entropy).value;
      }
      this.name := base + "-" + ourSessionKey;
      this.directory := directory;
      this.templateText := templateText;
      this.sessionKey := ourSessionKey;
      this.version := version;
      this.appVersion := appVersion;
    }

    function GetName(): (r: string)
      reads this
      ensures r == name
    {
      name
    }

    function GetVersion(): (r: string)
      reads this
      ensures r == version
    {
      version
    }

    function GetAppVersion(): (r: string)
      reads this
      ensures r == appVersion
    {
      appVersion
    }

    /** Sets the version and nothing else; returns the same chart. */
    method WithVersion(v: string) returns (c: Chart)
      modifies this
      ensures c == this && version == v
      ensures name == old(name) && appVersion == old(appVersion) && sessionKey == old(sessionKey)
      ensures directory == old(directory) && templateText == old(templateText)
    {
      version := v;
      return this;
    }

    /** Sets the appVersion and nothing else; returns the same chart. */
    method WithAppVersion(v: string) returns (c: Chart)
      modifies this
      ensures c == this && appVersion == v
      ensures name == old(name) && version == old(version) && sessionKey == old(sessionKey)
      ensures directory == old(directory) && templateText == old(templateText)
    {
      appVersion := v;
      return this;
    }

    /** Sets the version to the original version with `suffix` appended
        after a dash, and nothing else. */
    method WithOriginalVersionSuffix(suffix: string) returns (c: Chart)
      modifies this
      ensures c == this && version == OriginalVersion + "-" + suffix
      ensures name == old(name) && appVersion == old(appVersion) && sessionKey == old(sessionKey)
      ensures directory == old(directory) && templateText == old(templateText)
    {
      c := WithVersion(OriginalVersion + "-" + suffix);
    }

    /** Sets the version to the original version with a random suffix of
        eight lowercase hex digits. */
    method WithRandomOriginalVersionSuffix(entropy: seq<byte>) returns (c: Chart)
      requires |entropy| == RandomSuffixLength + 2
      modifies this
      ensures c == this && version == OriginalVersion + "-" + RandomString(RandomSuffixLength, entropy).value
      ensures name == old(name) && appVersion == old(appVersion) && sessionKey == old(sessionKey)
      ensures directory == old(directory) && templateText == old(templateText)
    {
      c := WithOriginalVersionSuffix(RandomString(RandomSuffixLength, entropy).value);
    }
  }

  /** A version a random suffix produces: the original version, a dash and
      eight hex digits, fourteen characters in all. */
  lemma RandomVersionShape(entropy: seq<byte>)
    requires |entropy| == RandomSuffixLength + 2
    ensures var v := OriginalVersion + "-" + RandomString(RandomSuffixLength, entropy).value;
            |v| == 14 && v[..6] == "0.1.1-" && IsLowerHex(v[6..])
  {
    var v := OriginalVersion + "-" + RandomString(RandomSuffixLength, entropy).value;
    RandomStringDigits(RandomSuffixLength, entropy);
    assert v[6..] == RandomString(RandomSuffixLength, entropy).value;
  }

  method NewMyChart(entropy: seq<byte>) returns (c: Chart)
    requires |entropy| == SessionKeyLength + 2
    ensures fresh(c) && c.sessionKey == SessionKeyOf("", entropy)
    ensures c.name == SessionName(MyChartName, c.sessionKey)
    ensures |c.sessionKey| == SessionKeyLength && IsLowerHex(c.sessionKey)
    ensures c.version == OriginalVersion && c.appVersion == OriginalAppVersion
    ensures c.directory == MyChartDir && c.templateText == MyChartTemplate
  {
    c := new Chart(MyChartName, MyChartDir, MyChartTemplate, OriginalVersion, OriginalAppVersion, "", entropy);
  }

  method NewMyChartInSession(sessionKey: string, entropy: seq<byte>) returns (c: Chart)
    requires sessionKey == "" ==> |entropy| == SessionKeyLength + 2
    ensures fresh(c) && c.sessionKey == SessionKeyOf(sessionKey, entropy)
    ensures c.name == SessionName(MyChartName, c.sessionKey)
    ensures c.version == OriginalVersion && c.appVersion == OriginalAppVersion
    ensures c.directory == MyChartDir && c.templateText == MyChartTemplate
  {
    c := new Chart(MyChartName, MyChartDir, MyChartTemplate, OriginalVersion, OriginalAppVersion, sessionKey, entropy);
  }

  method NewMyDependentChart(entropy: seq<byte>) returns (c: Chart)
    requires |entropy| == SessionKeyLength + 2
    ensures fresh(c) && c.sessionKey == SessionKeyOf("", entropy)
    ensures c.name == SessionName(MyDependentChartName, c.sessionKey)
    ensures |c.sessionKey| == SessionKeyLength && IsLowerHex(c.sessionKey)
    ensures c.version == OriginalVersion && c.appVersion == OriginalAppVersion
    ensures c.directory == MyDependentChartDir && c.templateText == MyDependentChartTemplate
  {
    c := new Chart(MyDependentChartName, MyDependentChartDir, MyDependentChartTemplate,
                   OriginalVersion, OriginalAppVersion, "", entropy);
  }

  method NewMyDependentChartInSession(sessionKey: string, entropy: seq<byte>) returns (c: Chart)
    requires sessionKey == "" ==> |entropy| == SessionKeyLength + 2
    ensures fresh(c) && c.sessionKey == SessionKeyOf(sessionKey, entropy)
    ensures c.name == SessionName(MyDependentChartName, c.sessionKey)
    ensures c.version == OriginalVersion && c.appVersion == OriginalAppVersion
    ensures c.directory == MyDependentChartDir && c.templateText == MyDependentChartTemplate
  {
    c := new Chart(MyDependentChartName, MyDependentChartDir, MyDependentChartTemplate,
                   OriginalVersion, OriginalAppVersion, sessionKey, entropy);
  }

  /** `NewChartSession`: two fresh, distinct charts sharing one random
      session key, so their names differ from each other and share the
      key. */
  method NewChartSession(entropy: seq<byte>) returns (mychart: Chart, mydependentchart: Chart)
    requires |entropy| == SessionKeyLength + 2
    ensures fresh(mychart) && fresh(mydependentchart) && mychart != mydependentchart
    ensures mychart.sessionKey == mydependentchart.sessionKey == SessionKeyOf("", entropy)
    ensures mychart.name == SessionName(MyChartName, mychart.sessionKey)
    ensures mydependentchart.name == SessionName(MyDependentChartName, mychart.sessionKey)
    ensures mychart.name != mydependentchart.name
    ensures mychart.version == mydependentchart.version == OriginalVersion
    ensures mychart.appVersion == mydependentchart.appVersion == OriginalAppVersion
  {
    mychart := NewMyChart(entropy);
    mydependentchart := NewMyDependentChartInSession(mychart.sessionKey, entropy);
    assert MyDependentChartName == MyChartName + "-with-dependency";
    assert |mydependentchart.name| == |mychart.name| + 16;
  }
}
