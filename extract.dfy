/**
 * `value_template_extractor`: turns a value given as a string into the runs of
 * number characters it contains, and a template given as a string into the
 * time-unit keys it mentions, in the fixed key order of `TIME_UNITS`.
 */
module Extract {

  /** The characters a number run is made of (`NUMS`). */
  predicate IsNumChar(c: char)
  {
    c in "0123456789."
  }

  predicate AllNum(s: string)
  {
    forall i :: 0 <= i < |s| ==> IsNumChar(s[i])
  }

  /** The longest prefix of `s` made of number characters. */
  function TakeNums(s: string): (p: string)
    ensures p <= s && AllNum(p)
    ensures |p| < |s| ==> !IsNumChar(s[|p|])
  {
    if s == [] || !IsNumChar(s[0]) then [] else [s[0]] + TakeNums(s[1..])
  }

  /**
   * The maximal runs of number characters of `s`, left to right: skip
   * separators, take the longest run, continue after it.
   */
  function Runs(s: string): seq<string>
    decreases |s|
  {
    if s == [] then []
    else if !IsNumChar(s[0]) then Runs(s[1..])
    else
      var p := TakeNums(s);
      [p] + Runs(s[|p|..])
  }

  /** No run is empty, and every run is made of number characters only. */
  lemma {:induction false} RunsAreNumbers(s: string)
    ensures forall i :: 0 <= i < |Runs(s)| ==> |Runs(s)[i]| > 0 && AllNum(Runs(s)[i])
    decreases |s|
  {
    if s != [] {
      if !IsNumChar(s[0]) {
        RunsAreNumbers(s[1..]);
      } else {
        RunsAreNumbers(s[|TakeNums(s)|..]);
      }
    }
  }

  /** The number characters of `s`, separators dropped. */
  function NumChars(s: string): string
  {
    if s == [] then [] else (if IsNumChar(s[0]) then [s[0]] else []) + NumChars(s[1..])
  }

  function Concat(runs: seq<string>): string
  {
    if runs == [] then [] else runs[0] + Concat(runs[1..])
  }

  lemma {:induction false} NumCharsAppend(a: string, b: string)
    ensures NumChars(a + b) == NumChars(a) + NumChars(b)
    decreases |a|
  {
    if a != [] {
      assert (a + b)[1..] == a[1..] + b;
      NumCharsAppend(a[1..], b);
    } else {
      assert a + b == b;
    }
  }

  lemma {:induction false} NumCharsOfRun(p: string)
    requires AllNum(p)
    ensures NumChars(p) == p
    decreases |p|
  {
    if p != [] {
      NumCharsOfRun(p[1..]);
      assert p == [p[0]] + p[1..];
    }
  }

  /** The runs, joined back together, are exactly the number characters of the input: nothing lost, nothing added, order kept. */
  lemma {:induction false} RunsCoverNumChars(s: string)
    ensures Concat(Runs(s)) == NumChars(s)
    decreases |s|
  {
    if s != [] {
      if !IsNumChar(s[0]) {
        RunsCoverNumChars(s[1..]);
      } else {
        var p := TakeNums(s);
        RunsCoverNumChars(s[|p|..]);
        assert s == p + s[|p|..];
        NumCharsAppend(p, s[|p|..]);
        NumCharsOfRun(p);
        assert Runs(s) == [p] + Runs(s[|p|..]);
        assert Concat(Runs(s)) == p + Concat(Runs(s[|p|..]));
      }
    }
  }

  /** A number run followed by a separator ends where the separator starts. */
  lemma {:induction false} TakeNumsBeforeSeparator(p: string, t: string)
    requires AllNum(p) && t != [] && !IsNumChar(t[0])
    ensures TakeNums(p + t) == p
    decreases |p|
  {
    if p == [] {
      assert p + t == t;
    } else {
      assert (p + t)[1..] == p[1..] + t;
      TakeNumsBeforeSeparator(p[1..], t);
      assert p == [p[0]] + p[1..];
    }
  }

  /** A nonempty string of number characters is one run. */
  lemma {:induction false} TakeNumsOfRun(p: string)
    requires AllNum(p)
    ensures TakeNums(p) == p
    decreases |p|
  {
    if p != [] {
      TakeNumsOfRun(p[1..]);
      assert p == [p[0]] + p[1..];
    }
  }

  lemma RunsOfRun(p: string)
    requires AllNum(p) && p != []
    ensures Runs(p) == [p]
  {
    TakeNumsOfRun(p);
    assert p[|p|..] == [];
  }

  /** A run followed by a separator is the first run. */
  lemma RunThenSeparator(p: string, t: string)
    requires AllNum(p) && p != [] && t != [] && !IsNumChar(t[0])
    ensures Runs(p + t) == [p] + Runs(t)
  {
    TakeNumsBeforeSeparator(p, t);
    assert (p + t)[0] == p[0];
    assert (p + t)[|p|..] == t;
  }

  /** A separator splits the input: the runs of `a + [c] + b` are those of `a`, then those of `b`. */
  lemma {:induction false} RunsSplitAtSeparator(a: string, c: char, b: string)
    requires !IsNumChar(c)
    ensures Runs(a + [c] + b) == Runs(a) + Runs(b)
    decreases |a|
  {
    var s := a + [c] + b;
    if a == [] {
      assert s == [c] + b;
      assert s[1..] == b;
    } else if !IsNumChar(a[0]) {
      assert s[1..] == a[1..] + [c] + b;
      RunsSplitAtSeparator(a[1..], c, b);
    } else {
      var p := TakeNums(a);
      var rest := a[|p|..];
      assert a == p + rest;
      if rest == [] {
        assert s == a + ([c] + b);
        RunThenSeparator(a, [c] + b);
        assert ([c] + b)[1..] == b;
        RunsOfRun(a);
      } else {
        assert rest[0] == a[|p|];
        assert s == p + (rest + [c] + b);
        RunThenSeparator(p, rest + [c] + b);
        RunThenSeparator(p, rest);
        RunsSplitAtSeparator(rest, c, b);
      }
    }
  }

  /**
   * One character of the string branch: a number character extends the
   * pending run; any other character closes it, and the run comes first,
   * then the runs after that character.
   */
  lemma RunsStep(a: string, c: char, b: string)
    requires AllNum(a)
    ensures IsNumChar(c) ==> AllNum(a + [c]) && Runs(a + ([c] + b)) == Runs((a + [c]) + b)
    ensures !IsNumChar(c) ==> Runs(a + ([c] + b)) == (if a != [] then [a] else []) + Runs(b)
  {
    assert a + ([c] + b) == (a + [c]) + b;
    if !IsNumChar(c) {
      RunsSplitAtSeparator(a, c, b);
      if a != [] {
        RunsOfRun(a);
      } else {
        assert Runs(a) == [];
      }
    }
  }

  /** The loop of the string branch keeps its invariant over one character. */
  lemma NumberRunsStep(severalNumbers: seq<string>, oneNumber: string, value: string, i: nat)
    requires i < |value| && AllNum(oneNumber)
    requires severalNumbers + Runs(oneNumber + value[i..]) == Runs(value)
    ensures IsNumChar(value[i]) ==>
      AllNum(oneNumber + [value[i]]) && severalNumbers + Runs((oneNumber + [value[i]]) + value[i + 1..]) == Runs(value)
    ensures !IsNumChar(value[i]) ==>
      (if oneNumber != [] then severalNumbers + [oneNumber] else severalNumbers) + Runs("" + value[i + 1..]) == Runs(value)
  {
    assert value[i..] == [value[i]] + value[i + 1..];
    assert "" + value[i + 1..] == value[i + 1..];
    RunsStep(oneNumber, value[i], value[i + 1..]);
  }

  /** A pending run left at the end of the input is one more number, if it is not empty. */
  lemma RunsOfPending(oneNumber: string)
    requires AllNum(oneNumber)
    ensures Runs(oneNumber) == if oneNumber != [] then [oneNumber] else []
  {
    if oneNumber != [] {
      RunsOfRun(oneNumber);
    }
  }

  /** The string branch of `value_template_extractor`: collect `one_number` character by character. */
  method NumberRuns(value: string) returns (severalNumbers: seq<string>)
    ensures severalNumbers == Runs(value)
  {
    var oneNumber: string := "";
    severalNumbers := [];
    assert oneNumber + value[0..] == value;
    for i := 0 to |value|
      invariant AllNum(oneNumber)
      invariant severalNumbers + Runs(oneNumber + value[i..]) == Runs(value)
    {
      NumberRunsStep(severalNumbers, oneNumber, value, i);
      var val := value[i];
      if IsNumChar(val) {
        oneNumber := oneNumber + [val];
      } else {
        if oneNumber != [] {
          severalNumbers := severalNumbers + [oneNumber];
        }
        oneNumber := "";
      }
    }
    assert oneNumber + value[|value|..] == oneNumber;
    RunsOfPending(oneNumber);
    if oneNumber != [] && AllNum(oneNumber) {
      severalNumbers := severalNumbers + [oneNumber];
    }
  }

  /** ASCII upper case to lower case; every other character is kept. */
  function LowerChar(c: char): char
  {
    if 'A' <= c <= 'Z' then (c as int + 32) as char else c
  }

  /** `str.lower()`, character by character. */
  function Lower(s: string): (r: string)
    ensures |r| == |s| && forall i :: 0 <= i < |s| ==> r[i] == LowerChar(s[i])
  {
    seq(|s|, i requires 0 <= i < |s| => LowerChar(s[i]))
  }

  /** Lower-casing leaves no ASCII capital behind, and keeps every character that is not one. */
  lemma LowerLeavesNoCapitals(s: string)
    ensures forall i :: 0 <= i < |s| ==> !('A' <= Lower(s)[i] <= 'Z')
    ensures forall i :: 0 <= i < |s| && !('A' <= s[i] <= 'Z') ==> Lower(s)[i] == s[i]
  {
  }

  lemma LowerIdempotent(s: string)
    ensures Lower(Lower(s)) == Lower(s)
  {
  }

  /** `k` occurs in `t` as a substring. */
  predicate Occurs(k: string, t: string)
  {
    exists i :: 0 <= i <= |t| && k <= t[i..]
  }

  /** Python's `k in t` on strings, scanning start positions left to right. */
  function Contains(t: string, k: string): (r: bool)
    ensures r <==> Occurs(k, t)
    decreases |t|
  {
    if k <= t then
      assert t[0..] == t;
      true
    else if t == [] then
      false
    else
      OccursStep(t, k);
      Contains(t[1..], k)
  }

  /** When `k` is not a prefix of `t`, it occurs in `t` exactly when it occurs past the first character. */
  lemma OccursStep(t: string, k: string)
    requires t != [] && !(k <= t)
    ensures Occurs(k, t) <==> Occurs(k, t[1..])
  {
    if Occurs(k, t[1..]) {
      var i :| 0 <= i <= |t[1..]| && k <= t[1..][i..];
      assert t[1..][i..] == t[i + 1..];
    }
    if Occurs(k, t) {
      var i :| 0 <= i <= |t| && k <= t[i..];
      assert t[0..] == t;
      if i > 0 {
        assert t[1..][i - 1..] == t[i..];
      }
    }
  }

  /**
   * The keys of `TIME_UNITS`, in the dictionary's order; also the default
   * template of the constructor, `stamp` and `datetime`.
   */
  const UnitKeys: seq<string> := ["y", "m", "d", "h", "mi", "s"]

  /** The keys of `keys` that occur in `t`, kept in the order of `keys`. */
  function KeysIn(keys: seq<string>, t: string): (r: seq<string>)
    ensures forall k :: k in r <==> k in keys && Occurs(k, t)
  {
    if keys == [] then []
    else
      var init := KeysIn(keys[..|keys| - 1], t);
      var last := keys[|keys| - 1];
      assert keys == keys[..|keys| - 1] + [last];
      if Contains(t, last) then init + [last] else init
  }

  /** A key's place in `TIME_UNITS`. */
  function KeyRank(k: string): int
  {
    if k == "y" then 0 else if k == "m" then 1 else if k == "d" then 2
    else if k == "h" then 3 else if k == "mi" then 4 else if k == "s" then 5 else 6
  }

  lemma KeyRankOfUnitKey(i: int)
    requires 0 <= i < |UnitKeys|
    ensures KeyRank(UnitKeys[i]) == i
  {
  }

  /** Every key of `r` ranks below `n`, and the ranks strictly increase along `r`. */
  predicate RanksIncreasingBelow(r: seq<string>, n: int)
  {
    && (forall i :: 0 <= i < |r| ==> KeyRank(r[i]) < n)
    && (forall i, j :: 0 <= i < j < |r| ==> KeyRank(r[i]) < KeyRank(r[j]))
  }

  /** The tokens of a string template follow the order of `TIME_UNITS`, whatever order the template names them in. */
  lemma {:induction false} KeysInOrdered(n: nat, t: string)
    requires n <= |UnitKeys|
    ensures RanksIncreasingBelow(KeysIn(UnitKeys[..n], t), n)
  {
    if n > 0 {
      KeysInOrdered(n - 1, t);
      var keys := UnitKeys[..n];
      var init := KeysIn(UnitKeys[..n - 1], t);
      var last := UnitKeys[n - 1];
      assert keys[..|keys| - 1] == UnitKeys[..n - 1];
      assert keys[|keys| - 1] == last;
      KeyRankOfUnitKey(n - 1);
      var r := KeysIn(keys, t);
      if Contains(t, last) {
        assert r == init + [last];
        AppendHigherRank(init, last, n - 1);
      } else {
        assert r == init;
      }
    }
  }

  /** For the full key list: the tokens of any template string come in the order `y, m, d, h, mi, s`. */
  lemma TemplateTokensOrdered(t: string)
    ensures RanksIncreasingBelow(KeysIn(UnitKeys, t), |UnitKeys|)
  {
    KeysInOrdered(|UnitKeys|, t);
    assert UnitKeys[..|UnitKeys|] == UnitKeys;
  }

  lemma AppendHigherRank(init: seq<string>, last: string, n: int)
    requires RanksIncreasingBelow(init, n) && KeyRank(last) == n
    ensures RanksIncreasingBelow(init + [last], n + 1)
  {
    var r := init + [last];
    assert forall i :: 0 <= i < |init| ==> r[i] == init[i];
  }

  /** The template-string branch: lower-case it, then keep every unit key found in it. */
  method TemplateTokens(template: string) returns (tmp: seq<string>)
    ensures tmp == KeysIn(UnitKeys, Lower(template))
  {
    var lowered := Lower(template);
    tmp := [];
    for j := 0 to |UnitKeys|
      invariant tmp == KeysIn(UnitKeys[..j], lowered)
    {
      var item := UnitKeys[j];
      assert UnitKeys[..j + 1][..j] == UnitKeys[..j];
      if Contains(lowered, item) {
        tmp := tmp + [item];
      }
    }
    assert UnitKeys[..|UnitKeys|] == UnitKeys;
  }

  /** Naming minutes in a template always names months too: "m" is a substring of "mi". */
  lemma MinutesBringMonths(t: string)
    requires "mi" in KeysIn(UnitKeys, t)
    ensures "m" in KeysIn(UnitKeys, t)
  {
    var i :| 0 <= i <= |t| && "mi" <= t[i..];
    assert "m" <= t[i..];
  }

  /** How `value` may be given: a string, a list of strings (of which the first is used), or a list of numbers. */
  datatype Value = Text(text: string) | Texts(texts: seq<string>) | Numbers(numbers: seq<int>)

  /** How `template` may be given: a string or a list of keys. */
  datatype Template = TemplateText(text: string) | TemplateKeys(keys: seq<string>)

  /**
   * Value arguments the source handles without raising: a list must not be
   * empty (its first element is read), and the number runs of a string must
   * be whole numbers, since parsing decimals is not modelled.
   */
  predicate ValueHandled(v: Value)
  {
    match v
    case Text(s) => '.' !in s
    case Texts(ss) => |ss| > 0 && '.' !in ss[0]
    case Numbers(ns) => |ns| > 0
  }

  function DigitValue(c: char): int
  {
    c as int - '0' as int
  }

  /** The number a run of decimal digits denotes (`float(one_number)` on a whole number). */
  function DecimalValue(s: string): (n: int)
    requires '.' !in s && AllNum(s)
    ensures n >= 0
  {
    if s == [] then 0 else 10 * DecimalValue(s[..|s| - 1]) + DigitValue(s[|s| - 1])
  }

  /** Appending a digit shifts the number one decimal place and adds the digit, as positional notation reads it. */
  lemma DecimalValueAppend(s: string, c: char)
    requires '.' !in s && AllNum(s) && '0' <= c <= '9'
    ensures '.' !in s + [c] && AllNum(s + [c])
    ensures DecimalValue(s + [c]) == 10 * DecimalValue(s) + DigitValue(c)
  {
    assert (s + [c])[..|s|] == s;
  }

  /** The run "2025" is the number 2025, and a leading zero changes nothing. */
  lemma DecimalValueExamples()
    ensures DecimalValue("2025") == 2025
    ensures DecimalValue("007") == 7
  {
    assert "2025"[..3] == "202" && "202"[..2] == "20" && "20"[..1] == "2" && "2"[..0] == "";
    assert "007"[..2] == "00" && "00"[..1] == "0" && "0"[..0] == "";
  }

  /** The string the source scans for numbers, if the value is given as text. */
  function ValueText(v: Value): string
    requires v.Texts? ==> |v.texts| > 0
  {
    match v
    case Text(s) => s
    case Texts(ss) => ss[0]
    case Numbers(_) => ""
  }

  /** The list of numbers `value_template_extractor` returns for a value. */
  function ExtractedValue(v: Value): (r: seq<int>)
    requires ValueHandled(v)
    ensures v.Numbers? ==> r == v.numbers
    ensures !v.Numbers? ==> |r| == |Runs(ValueText(v))|
  {
    if v.Numbers? then v.numbers
    else
      var runs := Runs(ValueText(v));
      seq(|runs|, i requires 0 <= i < |runs| => RunDecimal(ValueText(v), runs, i))
  }

  function RunDecimal(s: string, runs: seq<string>, i: int): int
    requires '.' !in s && runs == Runs(s) && 0 <= i < |runs|
  {
    RunHasNoDot(s, i);
    RunsAreNumbers(s);
    DecimalValue(runs[i])
  }

  /** A run of a string without '.' has no '.' either. */
  lemma RunHasNoDot(s: string, i: int)
    requires '.' !in s && 0 <= i < |Runs(s)|
    ensures '.' !in Runs(s)[i]
  {
    RunsCoverNumChars(s);
    NoDotInNumChars(s);
    ConcatContains(Runs(s), i);
  }

  lemma {:induction false} NoDotInNumChars(s: string)
    requires '.' !in s
    ensures '.' !in NumChars(s)
    decreases |s|
  {
    if s != [] {
      assert s[1..] <= s[1..];
      assert forall c :: c in s[1..] ==> c in s;
      NoDotInNumChars(s[1..]);
    }
  }

  lemma {:induction false} ConcatContains(runs: seq<string>, i: int)
    requires 0 <= i < |runs|
    ensures forall c :: c in runs[i] ==> c in Concat(runs)
    decreases |runs|
  {
    if i > 0 {
      ConcatContains(runs[1..], i - 1);
    }
  }

  /** The list of keys `value_template_extractor` returns for a template. */
  function ExtractedTemplate(t: Template): seq<string>
  {
    match t
    case TemplateText(s) => KeysIn(UnitKeys, Lower(s))
    case TemplateKeys(ks) => ks
  }

  /** `value_template_extractor`: both branches, each by its own loop. */
  method ValueTemplateExtractor(value: Value, template: Template) returns (values: seq<int>, keys: seq<string>)
    requires ValueHandled(value)
    ensures values == ExtractedValue(value)
    ensures keys == ExtractedTemplate(template)
  {
    if value.Numbers? {
      values := value.numbers;
    } else {
      var text := if value.Texts? then value.texts[0] else value.text;
      var runs := NumberRuns(text);
      values := seq(|runs|, i requires 0 <= i < |runs| => RunDecimal(text, runs, i));
    }
    if template.TemplateText? {
      keys := TemplateTokens(template.text);
    } else {
      keys := template.keys;
    }
  }
}
