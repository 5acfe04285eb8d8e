/**
 * `formatSensorName`: the display label of a column or sensor name. Three
 * rewrites in a row: every `_` becomes a space (`/_/g`), the first word
 * character of every word is upper-cased (`/\b\w/g`), and the FIRST
 * "Temperature" becomes "Temp" (a string pattern, so not global).
 */
module SensorName {
  import opened Dict

  /** A character matched by `\w` (JavaScript regular expressions without the u flag). */
  predicate IsWordChar(c: char) {
    'a' <= c <= 'z' || 'A' <= c <= 'Z' || '0' <= c <= '9' || c == '_'
  }

  predicate IsLower(c: char) {
    'a' <= c <= 'z'
  }

  /** `toUpperCase` on a `\w` character: only ASCII letters change. */
  function ToUpper(c: char): (u: char)
    ensures IsLower(c) ==> u as int == c as int - 32
    ensures !IsLower(c) ==> u == c
    ensures IsWordChar(u) == IsWordChar(c)
    ensures !IsLower(u)
  {
    if IsLower(c) then (c as int - 'a' as int + 'A' as int) as char else c
  }

  /** Position i holds the first character of a word: `\b\w` matches there. */
  predicate WordStart(s: string, i: nat)
    requires i < |s|
  {
    IsWordChar(s[i]) && (i == 0 || !IsWordChar(s[i - 1]))
  }

  /** `.replace(/_/g, " ")` */
  function SpaceUnderscores(s: string): (r: string)
    ensures |r| == |s|
    ensures forall i :: 0 <= i < |s| ==> r[i] != '_'
    ensures forall i :: 0 <= i < |s| && s[i] == '_' ==> r[i] == ' '
    ensures forall i :: 0 <= i < |s| && s[i] != '_' ==> r[i] == s[i]
  {
    seq(|s|, i requires 0 <= i < |s| => if s[i] == '_' then ' ' else s[i])
  }

  /** `.replace(/\b\w/g, (l) => l.toUpperCase())` */
  function CapitalizeWords(s: string): (r: string)
    ensures |r| == |s|
    ensures forall i :: 0 <= i < |s| ==>
      r[i] == if WordStart(s, i) && IsLower(s[i]) then (s[i] as int - 32) as char else s[i]
  {
    seq(|s|, i requires 0 <= i < |s| => if WordStart(s, i) then ToUpper(s[i]) else s[i])
  }

  /** `pattern` occurs in s at position i. */
  predicate OccursAt(s: string, pattern: string, i: nat) {
    i + |pattern| <= |s| && s[i..i + |pattern|] == pattern
  }

  /** `indexOf` from position `from` on. */
  function IndexOf(s: string, pattern: string, from: nat): (r: Option<nat>)
    requires from <= |s|
    ensures r.Some? ==> from <= r.value && OccursAt(s, pattern, r.value)
    ensures r.Some? ==> forall j :: from <= j < r.value ==> !OccursAt(s, pattern, j)
    ensures r.None? ==> forall j :: from <= j ==> !OccursAt(s, pattern, j)
    decreases |s| - from
  {
    if OccursAt(s, pattern, from) then Some(from)
    else if from == |s| then None
    else IndexOf(s, pattern, from + 1)
  }

  /** `String.prototype.replace` with a string pattern: only the first occurrence. */
  function ReplaceFirst(s: string, pattern: string, replacement: string): (r: string)
    ensures IndexOf(s, pattern, 0).None? ==> r == s
    ensures IndexOf(s, pattern, 0).Some? ==>
      var i := IndexOf(s, pattern, 0).value;
      && |r| == |s| - |pattern| + |replacement|
      && r[..i] == s[..i]
      && r[i..i + |replacement|] == replacement
      && r[i + |replacement|..] == s[i + |pattern|..]
  {
    match IndexOf(s, pattern, 0)
    case Some(i) => s[..i] + replacement + s[i + |pattern|..]
    case None => s
  }

  const Long: string := "Temperature"
  const Short: string := "Temp"

  function Format(name: string): string {
    ReplaceFirst(CapitalizeWords(SpaceUnderscores(name)), Long, Short)
  }

  /** The first two rewrites keep the length and never produce `_`. */
  lemma CapitalizedShape(name: string)
    ensures |CapitalizeWords(SpaceUnderscores(name))| == |name|
    ensures forall i :: 0 <= i < |name| ==> CapitalizeWords(SpaceUnderscores(name))[i] != '_'
  {
  }

  /** After capitalization no word starts with a lower-case letter. */
  lemma CapitalizedWordStarts(s: string)
    ensures forall i :: 0 <= i < |s| && WordStart(CapitalizeWords(s), i) ==> !IsLower(CapitalizeWords(s)[i])
  {
    var c := CapitalizeWords(s);
    forall i | 0 <= i < |s| && WordStart(c, i)
      ensures !IsLower(c[i])
    {
      assert IsWordChar(c[i]) == IsWordChar(s[i]);
      assert i > 0 ==> IsWordChar(c[i - 1]) == IsWordChar(s[i - 1]);
      assert WordStart(s, i);
    }
  }

  /** A formatted name contains no underscore. */
  lemma {:induction false} FormatNoUnderscore(name: string)
    ensures forall i :: 0 <= i < |Format(name)| ==> Format(name)[i] != '_'
  {
    var c := CapitalizeWords(SpaceUnderscores(name));
    CapitalizedShape(name);
    match IndexOf(c, Long, 0)
    case Some(p) =>
      var r := c[..p] + Short + c[p + |Long|..];
      assert Format(name) == r;
      forall i | 0 <= i < |r| ensures r[i] != '_' {
        if i < p {
          assert r[i] == c[i];
        } else if i < p + |Short| {
          assert r[i] == Short[i - p];
        } else {
          assert r[i] == c[i + |Long| - |Short|];
        }
      }
    case None =>
  }

  /** In a formatted name every word starts with an upper-case letter or a digit. */
  lemma {:induction false} FormatWordStarts(name: string)
    ensures forall i :: 0 <= i < |Format(name)| && WordStart(Format(name), i) ==> !IsLower(Format(name)[i])
  {
    var c := CapitalizeWords(SpaceUnderscores(name));
    CapitalizedShape(name);
    CapitalizedWordStarts(SpaceUnderscores(name));
    match IndexOf(c, Long, 0)
    case Some(p) =>
      var r := c[..p] + Short + c[p + |Long|..];
      assert Format(name) == r;
      assert c[p..p + |Long|] == Long;
      forall i | 0 <= i < |r| && WordStart(r, i) ensures !IsLower(r[i]) {
        if i < p {
          assert r[i] == c[i];
          assert i > 0 ==> r[i - 1] == c[i - 1];
          assert WordStart(c, i);
        } else if i == p {
          assert c[p] == Long[0];
          assert r[i] == c[i];
        } else if i > p + |Short| {
          var d := |Long| - |Short|;
          assert r[i] == c[i + d];
          assert r[i - 1] == c[i - 1 + d];
          assert WordStart(c, i + d);
        }
      }
    case None =>
  }

  /**
   * Only the first "Temperature" of the capitalized name is shortened: the text
   * before it is kept, and everything after it, including any later
   * "Temperature", is kept too.
   */
  lemma FormatShortensFirstOnly(name: string)
    ensures var c := CapitalizeWords(SpaceUnderscores(name));
      match IndexOf(c, Long, 0)
      case Some(p) =>
        && Format(name) == c[..p] + Short + c[p + |Long|..]
        && (forall j: nat :: j < p ==> !OccursAt(c, Long, j))
        && |Format(name)| == |name| - (|Long| - |Short|)
      case None =>
        Format(name) == c && |Format(name)| == |name|
  {
    CapitalizedShape(name);
  }

  lemma CoolantCapitalized()
    ensures CapitalizeWords(SpaceUnderscores("coolant_temperature")) == "Coolant Temperature"
  {
    CoolantSpaced();
    CapitalizeJoin("coolant", "temperature");
    CoolantWord();
    TemperatureWord();
  }

  lemma CoolantSpaced()
    ensures SpaceUnderscores("coolant_temperature") == "coolant" + " " + "temperature"
  {
  }

  lemma CoolantWord()
    ensures CapitalizeWords("coolant") == "Coolant"
  {
    WordCapitalized("coolant", "Coolant");
  }

  lemma TemperatureWord()
    ensures CapitalizeWords("temperature") == "Temperature"
  {
    WordCapitalized("temperature", "Temperature");
  }

  lemma WordCapitalized(w: string, c: string)
    requires |w| > 0 && (forall i :: 0 <= i < |w| ==> IsLower(w[i])) && c == [ToUpper(w[0])] + w[1..]
    ensures CapitalizeWords(w) == c
  {
    CapitalizedWord(w);
  }

  lemma CoolantIndex()
    ensures IndexOf("Coolant Temperature", Long, 0) == Some(8)
  {
    var c := "Coolant Temperature";
    forall j: nat | j < 8 ensures !OccursAt(c, Long, j) {
      assert c[j..j + |Long|][0] == c[j];
    }
    assert OccursAt(c, Long, 8);
  }

  lemma CoolantShortened()
    ensures ReplaceFirst("Coolant Temperature", Long, Short) == "Coolant Temp"
  {
    CoolantIndex();
    var c := "Coolant Temperature";
    assert c[..8] + Short + c[19..] == "Coolant Temp";
  }

  /** A lower-case "temperature" is capitalized first and then shortened. */
  lemma ExampleCoolant()
    ensures Format("coolant_temperature") == "Coolant Temp"
  {
    CoolantCapitalized();
    CoolantShortened();
    FormatVia("coolant_temperature", "Coolant Temperature", "Coolant Temp");
  }

  /** Format as its two stages: the capitalized name, then the first shortening. */
  lemma FormatVia(name: string, c: string, r: string)
    requires CapitalizeWords(SpaceUnderscores(name)) == c && ReplaceFirst(c, Long, Short) == r
    ensures Format(name) == r
  {
  }

  lemma TwiceCapitalized()
    ensures CapitalizeWords(SpaceUnderscores("temperature_temperature")) == "Temperature Temperature"
  {
    TwiceSpaced();
    CapitalizeJoin("temperature", "temperature");
    TemperatureWord();
  }

  lemma TwiceSpaced()
    ensures SpaceUnderscores("temperature_temperature") == "temperature" + " " + "temperature"
  {
  }

  /** A word of lower-case letters gets only its first letter capitalized. */
  lemma CapitalizedWord(w: string)
    requires |w| > 0 && forall i :: 0 <= i < |w| ==> IsLower(w[i])
    ensures CapitalizeWords(w) == [ToUpper(w[0])] + w[1..]
  {
    assert forall i :: 0 < i < |w| ==> !WordStart(w, i);
  }

  /** Words separated by a space are capitalized independently. */
  lemma CapitalizeJoin(a: string, b: string)
    ensures CapitalizeWords(a + " " + b) == CapitalizeWords(a) + " " + CapitalizeWords(b)
  {
    var s := a + " " + b;
    var r := CapitalizeWords(a) + " " + CapitalizeWords(b);
    forall i | 0 <= i < |s| ensures CapitalizeWords(s)[i] == r[i] {
      if i < |a| {
        assert s[i] == a[i] && (i > 0 ==> s[i - 1] == a[i - 1]);
        assert WordStart(s, i) == WordStart(a, i);
      } else if i > |a| {
        var k := i - |a| - 1;
        assert s[i] == b[k] && (k > 0 ==> s[i - 1] == b[k - 1]);
        assert WordStart(s, i) == WordStart(b, k);
      }
    }
  }

  /** The replace is not global: a second "Temperature" stays. */
  lemma ExampleNotGlobal()
    ensures Format("temperature_temperature") == "Temp Temperature"
  {
    TwiceCapitalized();
    TwiceShortened();
    FormatVia("temperature_temperature", "Temperature Temperature", "Temp Temperature");
  }

  lemma TwiceShortened()
    ensures ReplaceFirst("Temperature Temperature", Long, Short) == "Temp Temperature"
  {
    var t := "Temperature Temperature";
    ShortenAtStart(t);
    assert Short + t[11..] == "Temp Temperature";
  }

  /** A name that starts with "Temperature" has that occurrence shortened. */
  lemma ShortenAtStart(t: string)
    requires OccursAt(t, Long, 0)
    ensures ReplaceFirst(t, Long, Short) == Short + t[|Long|..]
  {
    assert IndexOf(t, Long, 0) == Some(0);
  }
}
