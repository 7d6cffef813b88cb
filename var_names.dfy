/**
  `parseVariable`: splits the fully qualified name of a uniform-block field,
  `u_ankiPerDraw.<name>` or `u_ankiPerInstance[<idx>].<name>`, into the array
  index and the field name.
*/
module VarNames {
  import opened Common

  const PerDrawPrefix: string := "u_ankiPerDraw."
  const PerInstancePrefix: string := "u_ankiPerInstance["

  /** The index text is copied into a zero-filled `Array<char, 8>` before conversion. */
  const IndexBufferSize: nat := 8

  predicate IsDigit(c: char) { '0' <= c <= '9' }

  predicate AllDigits(s: string) { forall i | 0 <= i < |s| :: IsDigit(s[i]) }

  /** The value of a decimal digit string, most significant digit first. */
  function DigitsValue(s: string): nat
    requires AllDigits(s)
  {
    if |s| == 0 then 0
    else 10 * DigitsValue(s[..|s| - 1]) + ((s[|s| - 1] as int) - ('0' as int))
  }

  /**
    The bracketed index: it must fit the 8-character buffer together with its
    terminator, and `toNumber` must accept it (a non-empty run of decimal digits).
  */
  function ParseIndex(text: string): Result<nat> {
    if |text| >= IndexBufferSize then Fail(Fatal(IndexBufferOverrun))
    else if |text| == 0 || !AllDigits(text) then Fail(UserData(BadIndexText))
    else Ok(DigitsValue(text))
  }

  /** The decimal spelling of `n`, without leading zeros. */
  function Decimal(n: nat): (s: string)
    ensures 0 < |s| && AllDigits(s) && DigitsValue(s) == n
    ensures n < 10 ==> |s| == 1
    ensures n >= 10 ==> |s| == |Decimal(n / 10)| + 1
  {
    var d := (('0' as int) + n % 10) as char;
    if n < 10 then [d]
    else
      var s := Decimal(n / 10) + [d];
      assert s[..|s| - 1] == Decimal(n / 10);
      s
  }

  /** Indices below ten million have at most seven digits and so fit the buffer. */
  lemma DecimalFitsBuffer(n: nat)
    requires n < 10_000_000
    ensures |Decimal(n)| < IndexBufferSize
  {
    DecimalLength(n, 7);
  }

  /** A number below `10^k` has at most `k` digits. */
  lemma {:induction false} DecimalLength(n: nat, k: nat)
    requires 1 <= k && n < Pow10(k)
    ensures |Decimal(n)| <= k
  {
    if n >= 10 {
      assert k >= 2;
      DecimalLength(n / 10, k - 1);
    }
  }

  function Pow10(k: nat): nat {
    if k == 0 then 1 else 10 * Pow10(k - 1)
  }

  /** The field name is everything after the first dot of the full name. */
  predicate NameAfterFirstDot(fullName: string, name: string) {
    exists d | 0 <= d < |fullName| :: fullName[d] == '.' && '.' !in fullName[..d] && name == fullName[d + 1..]
  }

  /**
    The part of an instanced name that holds the index: the text between the
    opening bracket of the prefix and the first closing bracket, when that
    bracket comes after it.
  */
  predicate IndexTextIs(fullName: string, text: string) {
    exists rb | |PerInstancePrefix| <= rb < |fullName| ::
      fullName[rb] == ']' && ']' !in fullName[..rb] && text == fullName[|PerInstancePrefix|..rb]
  }

  /** `parseVariable`; what it accepts and returns is stated by `ParseVariableContract`. */
  function ParseVariable(fullName: string, instanced: bool): Result<(nat, string)>
  {
    if !instanced && !StartsWith(fullName, PerDrawPrefix) then Fail(UserData(BadPerDrawName))
    else if instanced && !StartsWith(fullName, PerInstancePrefix) then Fail(UserData(BadPerInstanceName))
    else
      var lb := Find(fullName, '[');
      var rb := Find(fullName, ']');
      var idx :-
        if instanced then
          if !((lb.None? && rb.None?) || (lb.Some? && rb.Some? && rb.value > lb.value)) then
            Fail(UserData(WrongVariableName))
          else if lb.Some? then ParseIndex(fullName[lb.value + 1..rb.value])
          else Ok(0)
        else if lb.Some? || rb.Some? then Fail(UserData(NonInstancedArray))
        else Ok(0);
      var dot := Find(fullName, '.');
      if dot.None? then Fail(UserData(WrongVariableName))
      else Ok((idx, fullName[dot.value + 1..]))
  }

  lemma ParseVariableContract(fullName: string, instanced: bool)
    // A per-draw field is well formed exactly when it has the prefix and no brackets; its index is 0.
    ensures !instanced ==>
      (ParseVariable(fullName, instanced).Ok? <==> StartsWith(fullName, PerDrawPrefix) && '[' !in fullName && ']' !in fullName)
    ensures !instanced && ParseVariable(fullName, instanced).Ok? ==>
      ParseVariable(fullName, instanced).value == (0, fullName[|PerDrawPrefix|..])
    // A per-instance field needs the prefix, a closing bracket after it and a decimal
    // index that fits the buffer; the index is the number between the brackets.
    ensures instanced && ParseVariable(fullName, instanced).Ok? ==>
      (StartsWith(fullName, PerInstancePrefix)
       && exists text | IndexTextIs(fullName, text) ::
            (0 < |text| < IndexBufferSize && AllDigits(text) && ParseVariable(fullName, instanced).value.0 == DigitsValue(text)))
    // In both forms the returned name is the text after the first dot, and there must be one.
    ensures ParseVariable(fullName, instanced).Ok? ==> NameAfterFirstDot(fullName, ParseVariable(fullName, instanced).value.1)
    ensures '.' !in fullName ==> ParseVariable(fullName, instanced).Fail?
  {
    if !instanced && StartsWith(fullName, PerDrawPrefix) {
      assert fullName[..|PerDrawPrefix|] == PerDrawPrefix;
      assert fullName[|PerDrawPrefix| - 1] == '.';
    }
    if '.' in fullName && (!instanced ==> StartsWith(fullName, PerDrawPrefix))
       && (instanced ==> StartsWith(fullName, PerInstancePrefix)) {
      ParseVariableShape(fullName, instanced);
    }
  }

  /** The facts about the prefixes that `ParseVariable`'s contract rests on. */
  lemma ParseVariableShape(fullName: string, instanced: bool)
    requires '.' in fullName
    requires !instanced ==> StartsWith(fullName, PerDrawPrefix)
    requires instanced ==> StartsWith(fullName, PerInstancePrefix)
    ensures !instanced ==> Find(fullName, '.') == Some(|PerDrawPrefix| - 1)
    ensures instanced ==> Find(fullName, '[') == Some(|PerInstancePrefix| - 1)
    ensures NameAfterFirstDot(fullName, fullName[Find(fullName, '.').value + 1..])
    ensures instanced && Find(fullName, ']').Some? && Find(fullName, ']').value > |PerInstancePrefix| - 1 ==>
      IndexTextIs(fullName, fullName[|PerInstancePrefix|..Find(fullName, ']').value])
  {
    var d := Find(fullName, '.').value;
    assert fullName[d] == '.' && '.' !in fullName[..d];
    if !instanced {
      assert fullName[..|PerDrawPrefix|] == PerDrawPrefix;
      assert fullName[|PerDrawPrefix| - 1] == '.';
      assert '.' !in fullName[..|PerDrawPrefix| - 1] by {
        assert fullName[..|PerDrawPrefix| - 1] == PerDrawPrefix[..|PerDrawPrefix| - 1];
      }
    } else {
      assert fullName[..|PerInstancePrefix|] == PerInstancePrefix;
      assert fullName[|PerInstancePrefix| - 1] == '[';
      assert '[' !in fullName[..|PerInstancePrefix| - 1] by {
        assert fullName[..|PerInstancePrefix| - 1] == PerInstancePrefix[..|PerInstancePrefix| - 1];
      }
    }
  }

  /** The spelling of an instanced field at array element `i`. */
  function InstancedName(i: nat, name: string): string {
    PerInstancePrefix + Decimal(i) + "]." + name
  }

  /** Round trip: the instanced spelling of element `i` of field `name` parses back to `(i, name)`. */
  lemma InstancedRoundTrip(i: nat, name: string)
    requires i < 10_000_000
    requires '.' !in name && '[' !in name && ']' !in name
    ensures ParseVariable(InstancedName(i, name), true) == Ok((i, name))
  {
    var digits := Decimal(i);
    var full := InstancedName(i, name);
    var p := |PerInstancePrefix|;
    DecimalFitsBuffer(i);
    InstancedNameLayout(digits, name, full);
    assert ParseIndex(full[p - 1 + 1..p + |digits|]) == Ok(i);
  }

  /** Where the brackets and the first dot sit in an instanced spelling. */
  lemma InstancedNameLayout(digits: string, name: string, full: string)
    requires AllDigits(digits)
    requires '.' !in name
    requires full == PerInstancePrefix + digits + "]." + name
    ensures StartsWith(full, PerInstancePrefix)
    ensures Find(full, '[') == Some(|PerInstancePrefix| - 1)
    ensures Find(full, ']') == Some(|PerInstancePrefix| + |digits|)
    ensures Find(full, '.') == Some(|PerInstancePrefix| + |digits| + 1)
    ensures full[|PerInstancePrefix|..|PerInstancePrefix| + |digits|] == digits
    ensures full[|PerInstancePrefix| + |digits| + 2..] == name
  {
    var pre := PerInstancePrefix;
    assert NoBracketOrDotIn(pre[..|pre| - 1]) && pre[|pre| - 1] == '[';
    BracketedLayout(pre, digits, name, full);
  }

  /** The layout argument for any prefix that ends in its only bracket. */
  lemma BracketedLayout(pre: string, digits: string, name: string, full: string)
    requires 0 < |pre| && NoBracketOrDotIn(pre[..|pre| - 1]) && pre[|pre| - 1] == '['
    requires AllDigits(digits)
    requires full == pre + digits + "]." + name
    ensures full[..|pre|] == pre
    ensures Find(full, '[') == Some(|pre| - 1)
    ensures Find(full, ']') == Some(|pre| + |digits|)
    ensures Find(full, '.') == Some(|pre| + |digits| + 1)
    ensures full[|pre|..|pre| + |digits|] == digits
    ensures full[|pre| + |digits| + 2..] == name
  {
    var p := |pre|;
    BracketedPrefixChars(pre, digits, name, full);
    FindIs(full, '[', p - 1);
    FindIs(full, ']', p + |digits|);
    FindIs(full, '.', p + |digits| + 1);
  }

  /** Before the closing bracket only the prefix's last character is a bracket, and none is a dot. */
  lemma BracketedPrefixChars(pre: string, digits: string, name: string, full: string)
    requires 0 < |pre| && NoBracketOrDotIn(pre[..|pre| - 1]) && pre[|pre| - 1] == '['
    requires AllDigits(digits)
    requires full == pre + digits + "]." + name
    ensures |pre| + |digits| + 2 <= |full|
    ensures full[|pre| - 1] == '[' && full[|pre| + |digits|] == ']' && full[|pre| + |digits| + 1] == '.'
    ensures forall j | 0 <= j < |pre| + |digits| ::
      full[j] != ']' && full[j] != '.' && (j < |pre| - 1 ==> full[j] != '[')
    ensures full[..|pre|] == pre
    ensures full[|pre|..|pre| + |digits|] == digits
    ensures full[|pre| + |digits| + 2..] == name
  {
    var p := |pre|;
    assert full[..p] == pre;
    assert full[p..p + |digits|] == digits;
    assert full[p + |digits| + 2..] == name;
    var stem := pre[..p - 1];
    forall j | 0 <= j < p + |digits| ensures full[j] != ']' && full[j] != '.' && (j < p - 1 ==> full[j] != '[') {
      if j < p - 1 {
        assert full[j] == stem[j] && stem[j] in stem;
      } else if j >= p {
        assert full[j] == digits[j - p] && IsDigit(digits[j - p]);
      }
    }
  }

  /** `Find` answers `k` when `k` holds the character and no earlier position does. */
  lemma FindIs(s: string, c: char, k: nat)
    requires k < |s| && s[k] == c
    requires forall j | 0 <= j < k :: s[j] != c
    ensures Find(s, c) == Some(k)
  {
    assert c in s;
  }

  lemma NotInPrefix(s: string, c: char, n: nat)
    requires n <= |s|
    requires forall k | 0 <= k < n :: s[k] != c
    ensures c !in s[..n]
  {
    forall k | 0 <= k < n ensures s[..n][k] != c {
    }
  }

  predicate NoBracketOrDotIn(s: string) {
    '[' !in s && ']' !in s && '.' !in s
  }

  /** Round trip: a per-draw field parses back to index 0 and its own name. */
  lemma PerDrawRoundTrip(name: string)
    requires '[' !in name && ']' !in name
    ensures ParseVariable(PerDrawPrefix + name, false) == Ok((0, name))
  {
    var full := PerDrawPrefix + name;
    assert full[..|PerDrawPrefix|] == PerDrawPrefix;
    assert full[|PerDrawPrefix|..] == name;
    assert '[' !in full && ']' !in full by {
      assert forall k | 0 <= k < |full| :: full[k] != '[' && full[k] != ']' by {
        forall k | 0 <= k < |full| ensures full[k] != '[' && full[k] != ']' {
          if k >= |PerDrawPrefix| { assert full[k] == name[k - |PerDrawPrefix|]; }
        }
      }
    }
    assert full[|PerDrawPrefix| - 1] == '.';
  }
}
