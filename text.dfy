/** String helpers the pages use: the decimal text of a number (`String(n)`,
    `Date.now()` inside a template), JavaScript's `String.prototype.trim` and `startsWith`,
    `name.split('.').pop()` and the replacement `name.replace(/\.[^/.]+$/, '.webp')`. */
module Text {
  import opened Types

  // ---------------------------------------------------------------------------
  // Decimal text of a natural number

  predicate IsDigit(c: char) { '0' <= c <= '9' }

  function DigitChar(d: nat): (c: char)
    requires d < 10
    ensures IsDigit(c)
  {
    ['0', '1', '2', '3', '4', '5', '6', '7', '8', '9'][d]
  }

  function DigitValue(c: char): (d: nat)
    requires IsDigit(c)
    ensures d < 10
  {
    (c as int - '0' as int) as nat
  }

  /** Decimal text without leading zeros, as JavaScript prints a non-negative
      integer. */
  function NatToDecimal(n: nat): (s: string)
    ensures |s| >= 1
    ensures forall i :: 0 <= i < |s| ==> IsDigit(s[i])
    ensures s[0] == '0' ==> n == 0
    decreases n
  {
    if n < 10 then [DigitChar(n)] else NatToDecimal(n / 10) + [DigitChar(n % 10)]
  }

  /** The number a string of digits denotes. */
  function DecimalValue(s: string): nat
    requires forall i :: 0 <= i < |s| ==> IsDigit(s[i])
  {
    if s == [] then 0 else DecimalValue(s[..|s| - 1]) * 10 + DigitValue(s[|s| - 1])
  }

  lemma DigitRoundTrip(d: nat)
    requires d < 10
    ensures DigitValue(DigitChar(d)) == d
  {
  }

  /** Reading the text back gives the number: the decimal text is injective. */
  lemma {:induction false} DecimalRoundTrip(n: nat)
    ensures DecimalValue(NatToDecimal(n)) == n
    decreases n
  {
    var s := NatToDecimal(n);
    if n < 10 {
      DigitRoundTrip(n);
    } else {
      DecimalRoundTrip(n / 10);
      DigitRoundTrip(n % 10);
      assert s[..|s| - 1] == NatToDecimal(n / 10);
    }
  }

  /** A number in 100000..999999 is written with exactly six digits. */
  lemma SixDigitText(n: nat)
    requires 100000 <= n <= 999999
    ensures |NatToDecimal(n)| == 6
  {
    var a := n / 10;
    var b := a / 10;
    var c := b / 10;
    var d := c / 10;
    var e := d / 10;
    assert |NatToDecimal(e)| == 1;
    assert |NatToDecimal(d)| == 2;
    assert |NatToDecimal(c)| == 3;
    assert |NatToDecimal(b)| == 4;
    assert |NatToDecimal(a)| == 5;
  }

  // ---------------------------------------------------------------------------
  // String.prototype.trim

  /** The characters ECMAScript's WhiteSpace and LineTerminator productions
      cover: tab, vertical tab, form feed, space, no-break space, the byte
      order mark, the Unicode space separators, and the four line terminators. */
  predicate IsJsSpace(c: char) {
    var n := c as int;
    n == 0x09 || n == 0x0A || n == 0x0B || n == 0x0C || n == 0x0D || n == 0x20 ||
    n == 0xA0 || n == 0x1680 || (0x2000 <= n <= 0x200A) || n == 0x2028 || n == 0x2029 ||
    n == 0x202F || n == 0x205F || n == 0x3000 || n == 0xFEFF
  }

  predicate AllSpace(s: string) { forall i :: 0 <= i < |s| ==> IsJsSpace(s[i]) }

  function TrimStart(s: string): (r: string)
    ensures |r| <= |s|
  {
    if s != [] && IsJsSpace(s[0]) then TrimStart(s[1..]) else s
  }

  /** `TrimStart` cuts off exactly the leading white space. */
  lemma {:induction false} TrimStartSpec(s: string)
    ensures var r := TrimStart(s);
      && (r == [] || !IsJsSpace(r[0]))
      && r == s[|s| - |r|..] && AllSpace(s[..|s| - |r|])
  {
    if s != [] && IsJsSpace(s[0]) {
      var tail := s[1..];
      TrimStartSpec(tail);
      var r := TrimStart(tail);
      var n := |s| - |r|;
      assert tail[|tail| - |r|..] == s[n..];
      forall k | 0 <= k < n ensures IsJsSpace(s[k]) {
        if k > 0 {
          assert s[k] == tail[..|tail| - |r|][k - 1];
        }
      }
    }
  }

  function TrimEnd(s: string): (r: string)
    ensures |r| <= |s|
  {
    if s != [] && IsJsSpace(s[|s| - 1]) then TrimEnd(s[..|s| - 1]) else s
  }

  /** `TrimEnd` cuts off exactly the trailing white space. */
  lemma {:induction false} TrimEndSpec(s: string)
    ensures var r := TrimEnd(s);
      && (r == [] || !IsJsSpace(r[|r| - 1]))
      && r == s[..|r|] && AllSpace(s[|r|..])
  {
    if s != [] && IsJsSpace(s[|s| - 1]) {
      var init := s[..|s| - 1];
      TrimEndSpec(init);
      var r := TrimEnd(init);
      assert init[..|r|] == s[..|r|];
      forall k | |r| <= k < |s| ensures IsJsSpace(s[k]) {
        if k < |s| - 1 {
          assert s[k] == init[|r|..][k - |r|];
        }
      }
    }
  }

  /** Slicing a suffix again is slicing the original. */
  lemma SliceOfSuffix(s: string, i: nat, n: nat)
    requires i + n <= |s|
    ensures s[i..][..n] == s[i..i + n] && s[i..][n..] == s[i + n..]
  {
  }

  /** `s.trim()`: the text between the leading and the trailing white space
      (`TrimSpec` states it). */
  function Trim(s: string): (r: string)
    ensures |r| <= |s|
  {
    TrimEnd(TrimStart(s))
  }

  /** The trimmed text is a slice of the input, only white space is cut off
      either end, and none is left at either end. */
  lemma TrimSpec(s: string)
    ensures var r := Trim(s);
      && (r == [] || (!IsJsSpace(r[0]) && !IsJsSpace(r[|r| - 1])))
      && exists i, j :: 0 <= i <= j <= |s| && r == s[i..j] && AllSpace(s[..i]) && AllSpace(s[j..])
  {
    var t := TrimStart(s);
    var r := TrimEnd(t);
    var i := |s| - |t|;
    TrimStartSpec(s);
    TrimEndSpec(t);
    SliceOfSuffix(s, i, |r|);
    assert r == s[i..i + |r|] && AllSpace(s[..i]) && AllSpace(s[i + |r|..]);
  }

  /** `s.startsWith(prefix)` */
  predicate StartsWith(s: string, prefix: string) {
    |prefix| <= |s| && s[..|prefix|] == prefix
  }

  // ---------------------------------------------------------------------------
  // File names

  /** The position of the last `.` in the name, if any. */
  function LastDot(name: string): (o: Option<nat>)
    ensures o.Some? ==> o.value < |name| && name[o.value] == '.'
    ensures forall k :: (if o.Some? then o.value + 1 else 0) <= k < |name| ==> name[k] != '.'
  {
    if name == [] then None
    else if name[|name| - 1] == '.' then Some(|name| - 1)
    else LastDot(name[..|name| - 1])
  }

  /** `name.split('.').pop()`: the text after the last `.`, or the whole name
      when it has no `.` (`FileExtensionSpec` states it). */
  function FileExtension(name: string): (ext: string) {
    match LastDot(name)
    case None => name
    case Some(i) => name[i + 1..]
  }

  /** The extension is a dot-free suffix of the name, preceded by a dot unless
      it is the whole name. */
  lemma FileExtensionSpec(name: string)
    ensures var ext := FileExtension(name);
      && '.' !in ext
      && |ext| <= |name| && ext == name[|name| - |ext|..]
      && (|ext| == |name| || name[|name| - |ext| - 1] == '.')
  {
    var ext := FileExtension(name);
    var n := |name| - |ext|;
    forall k | 0 <= k < |ext| ensures ext[k] != '.' {
      assert ext[k] == name[n + k];
    }
  }

  /** Whatever comes before it, a final `.ext` without dots is what
      `split('.').pop()` returns. */
  lemma FileExtensionAfterDot(prefix: string, ext: string)
    requires '.' !in ext
    ensures FileExtension(prefix + "." + ext) == ext
  {
    var name := prefix + "." + ext;
    var n := |prefix|;
    assert name[n] == '.';
    forall k | n < k < |name| ensures name[k] != '.' {
      assert name[k] == ext[k - n - 1];
    }
    assert LastDot(name) == Some(n);
    assert name[n + 1..] == ext;
  }

  /** `\.[^/.]+$` matches at `i`: a dot, then one or more characters up to the
      end of the name, none of them a dot or a slash. */
  predicate ExtSuffixAt(name: string, i: int) {
    0 <= i < |name| - 1 && name[i] == '.' &&
    forall k :: i < k < |name| ==> name[k] != '.' && name[k] != '/'
  }

  /** Where `\.[^/.]+$` matches, the dot is the last one in the name and the
      extension is the text after it. */
  lemma ExtSuffixIsLastDot(name: string, i: int)
    requires ExtSuffixAt(name, i)
    ensures FileExtension(name) == name[i + 1..]
  {
    assert name == name[..i] + "." + name[i + 1..];
    FileExtensionAfterDot(name[..i], name[i + 1..]);
  }

  /** Where `\.[^/.]+$` matches, the dot is the last one in the name and no
      slash follows it. */
  lemma LastDotOfExtSuffix(name: string, j: int)
    requires ExtSuffixAt(name, j)
    ensures LastDot(name) == Some(j) && '/' !in name[j + 1..]
  {
    var d := LastDot(name);
    assert name[j] == '.';
    assert d.Some?;
    assert name[d.value] == '.';
    var tail := name[j + 1..];
    forall k | 0 <= k < |tail| ensures tail[k] != '/' {
      assert tail[k] == name[j + 1 + k];
    }
  }

  /** The position of the dot where `\.[^/.]+$` matches, if it matches at all
      (`ExtDotSpec` states it). */
  function ExtDot(name: string): (o: Option<nat>) {
    var d := LastDot(name);
    if d.Some? && d.value < |name| - 1 && '/' !in name[d.value + 1..] then d else None
  }

  /** `ExtDot` finds the match if there is one, and there is at most one. */
  lemma ExtDotSpec(name: string)
    ensures ExtDot(name).Some? ==> ExtSuffixAt(name, ExtDot(name).value)
    ensures forall i :: ExtSuffixAt(name, i) ==> ExtDot(name) == Some(i)
  {
    var o := ExtDot(name);
    if o.Some? {
      var i := o.value;
      var tail := name[i + 1..];
      forall k | i < k < |name| ensures name[k] != '.' && name[k] != '/' {
        assert name[k] == tail[k - i - 1];
      }
    }
    forall j | ExtSuffixAt(name, j) ensures o == Some(j) {
      LastDotOfExtSuffix(name, j);
    }
  }

  /** `name.replace(/\.[^/.]+$/, '.webp')` (`WebpNameSpec` states it). */
  function WebpName(name: string): (r: string) {
    match ExtDot(name)
    case Some(i) => name[..i] + ".webp"
    case None => name
  }

  /** A final extension is replaced by `.webp`; a name without one is
      returned unchanged. */
  lemma WebpNameSpec(name: string)
    ensures forall i :: ExtSuffixAt(name, i) ==> WebpName(name) == name[..i] + ".webp"
    ensures (forall i :: !ExtSuffixAt(name, i)) ==> WebpName(name) == name
  {
    ExtDotSpec(name);
  }

  /** `${Date.now()}_${suffix}.${ext}` */
  function UploadName(now: nat, suffix: string, ext: string): string {
    NatToDecimal(now) + "_" + suffix + "." + ext
  }

  /** The extension of a generated upload name is the extension it was built
      from, so the stored file keeps the type the original name announced. */
  lemma UploadNameExtension(now: nat, suffix: string, name: string)
    ensures FileExtension(UploadName(now, suffix, FileExtension(name))) == FileExtension(name)
  {
    var ext := FileExtension(name);
    FileExtensionSpec(name);
    FileExtensionAfterDot(NatToDecimal(now) + "_" + suffix, ext);
  }

  /** Any text put in front of a generated upload name leaves its extension
      as it was built. */
  lemma PrefixedUploadNameExtension(prefix: string, now: nat, suffix: string, ext: string)
    requires '.' !in ext
    ensures FileExtension(prefix + UploadName(now, suffix, ext)) == ext
  {
    var stem := NatToDecimal(now) + "_" + suffix;
    var dotted := stem + ".";
    assert prefix + UploadName(now, suffix, ext) == prefix + (dotted + ext);
    assert prefix + (dotted + ext) == (prefix + dotted) + ext;
    assert prefix + dotted == (prefix + stem) + ".";
    FileExtensionAfterDot(prefix + stem, ext);
  }
}
