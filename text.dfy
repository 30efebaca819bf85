/** String helpers with the semantics of the Python built-ins the pipelines use:
    str.endswith, os.path.join, str.join, str.split and str() of a non-negative int. */
module Text {

  /** s.endswith(suffix): s is some text followed by suffix. */
  predicate EndsWith(s: string, suffix: string)
    ensures EndsWith(s, suffix) ==> |suffix| <= |s| && s == s[..|s| - |suffix|] + suffix
  {
    |suffix| <= |s| && s[|s| - |suffix|..] == suffix
  }

  /** Any text followed by the suffix ends with it. */
  lemma EndsWithAppend(t: string, suffix: string)
    ensures EndsWith(t + suffix, suffix)
  {
    assert (t + suffix)[|t|..] == suffix;
  }

  /** os.path.join(dir, name) on POSIX for two components. */
  function JoinPath(dir: string, name: string): (p: string)
    ensures EndsWith(p, name)
  {
    if |name| > 0 && name[0] == '/' then name
    else if dir == [] || dir[|dir| - 1] == '/' then dir + name
    else dir + "/" + name
  }

  /** sep.join(parts): the first part, then each further part after a separator. */
  function JoinWith(sep: string, parts: seq<string>): (r: string)
    ensures |parts| == 1 ==> r == parts[0]
    ensures |parts| >= 2 ==> parts[0] + sep <= r
  {
    if parts == [] then ""
    else if |parts| == 1 then parts[0]
    else
      var init := JoinWith(sep, parts[..|parts| - 1]);
      init + sep + parts[|parts| - 1]
  }

  /** s.split(sep) for a one-character separator: never empty, "" splits to [""]. */
  function Split(sep: char, s: string): (r: seq<string>)
    ensures |r| >= 1
  {
    if s == [] then [""]
    else
      var init := Split(sep, s[..|s| - 1]);
      var c := s[|s| - 1];
      if c == sep then init + [""]
      else init[..|init| - 1] + [init[|init| - 1] + [c]]
  }

  /** No field of a split holds the separator. */
  lemma {:induction false} SplitFieldsFree(sep: char, s: string)
    ensures forall k :: 0 <= k < |Split(sep, s)| ==> sep !in Split(sep, s)[k]
  {
    if s != [] {
      SplitFieldsFree(sep, s[..|s| - 1]);
    }
  }

  /** One more character that is not the separator extends the last field. */
  lemma SplitSnoc(sep: char, s: string, c: char)
    requires c != sep
    ensures var init := Split(sep, s);
            Split(sep, s + [c]) == init[..|init| - 1] + [init[|init| - 1] + [c]]
  {
    assert (s + [c])[..|s|] == s;
  }

  /** The last field of a split, replaced by itself extended with `tail`. */
  function ExtendLast(fields: seq<string>, tail: string): seq<string>
    requires |fields| >= 1
  {
    fields[..|fields| - 1] + [fields[|fields| - 1] + tail]
  }

  lemma ExtendLastStep(fields: seq<string>, t: string, c: char)
    requires |fields| >= 1
    ensures var e := ExtendLast(fields, t);
            ExtendLast(fields, t + [c]) == e[..|e| - 1] + [e[|e| - 1] + [c]]
  {
    var e := ExtendLast(fields, t);
    assert e[..|e| - 1] == fields[..|fields| - 1];
    assert e[|e| - 1] + [c] == fields[|fields| - 1] + (t + [c]);
  }

  /** Appending text free of the separator only extends the last field. */
  lemma {:induction false} SplitExtendsLast(sep: char, a: string, tail: string)
    requires sep !in tail
    ensures Split(sep, a + tail) == ExtendLast(Split(sep, a), tail)
  {
    if tail == [] {
      var sa := Split(sep, a);
      assert a + tail == a;
      assert sa[|sa| - 1] + tail == sa[|sa| - 1];
      assert sa[..|sa| - 1] + [sa[|sa| - 1]] == sa;
    } else {
      var t' := tail[..|tail| - 1];
      var c := tail[|tail| - 1];
      SplitExtendsLast(sep, a, t');
      assert a + tail == (a + t') + [c];
      assert t' + [c] == tail;
      SplitSnoc(sep, a + t', c);
      ExtendLastStep(Split(sep, a), t', c);
    }
  }

  /** Splitting a joined line gives back its fields, when no field holds the separator. */
  lemma {:induction false} SplitJoin(sep: char, parts: seq<string>)
    requires |parts| >= 1
    requires forall k :: 0 <= k < |parts| ==> sep !in parts[k]
    ensures Split(sep, JoinWith([sep], parts)) == parts
  {
    var last := parts[|parts| - 1];
    if |parts| == 1 {
      SplitExtendsLast(sep, "", last);
      assert "" + last == last;
    } else {
      var init := parts[..|parts| - 1];
      SplitJoin(sep, init);
      var a := JoinWith([sep], init) + [sep];
      assert a[..|a| - 1] == JoinWith([sep], init);
      assert Split(sep, a) == init + [""];
      SplitExtendsLast(sep, a, last);
      assert (init + [""])[..|init|] == init;
      assert (init + [""])[|init|] + last == last;
      assert parts == init + [last];
      assert JoinWith([sep], parts) == a + last;
    }
  }

  predicate IsDigit(c: char)
  {
    '0' <= c <= '9'
  }

  predicate AllDigits(s: string)
  {
    forall k :: 0 <= k < |s| ==> IsDigit(s[k])
  }

  function Digit(d: nat): (c: char)
    requires d < 10
    ensures IsDigit(c)
  {
    ('0' as int + d) as char
  }

  function Pow10(n: nat): (p: nat)
    ensures p >= 1
  {
    if n == 0 then 1 else 10 * Pow10(n - 1)
  }

  /** The number a string of decimal digits denotes (int(s) for such strings). */
  function Value(s: string): nat
    requires AllDigits(s)
  {
    if s == [] then 0 else 10 * Value(s[..|s| - 1]) + (s[|s| - 1] as int - '0' as int)
  }

  /** str(n): digits without a leading zero, except "0" itself. */
  function Decimal(n: nat): (s: string)
    ensures |s| >= 1 && AllDigits(s)
    ensures s[0] != '0' || |s| == 1
  {
    if n < 10 then [Digit(n)] else Decimal(n / 10) + [Digit(n % 10)]
  }

  /** n written with exactly `width` digits, zero-padded on the left (the %02d / %04d of strftime). */
  function Padded(n: nat, width: nat): (s: string)
    requires n < Pow10(width)
    ensures |s| == width && AllDigits(s)
  {
    if width == 0 then "" else Padded(n / 10, width - 1) + [Digit(n % 10)]
  }

  lemma {:induction false} DecimalValue(n: nat)
    ensures Value(Decimal(n)) == n
  {
    if n >= 10 {
      DecimalValue(n / 10);
      var s := Decimal(n);
      assert s[..|s| - 1] == Decimal(n / 10);
    }
  }

  lemma {:induction false} PaddedValue(n: nat, width: nat)
    requires n < Pow10(width)
    ensures Value(Padded(n, width)) == n
  {
    if width > 0 {
      PaddedValue(n / 10, width - 1);
      var s := Padded(n, width);
      assert s[..|s| - 1] == Padded(n / 10, width - 1);
    }
  }

  /** The first field of a line is whatever precedes the first separator. */
  lemma {:induction false} SplitFirstField(sep: char, a: string, b: string)
    requires sep !in a
    ensures |Split(sep, a + [sep] + b)| >= 2 && Split(sep, a + [sep] + b)[0] == a
  {
    if b == [] {
      SplitExtendsLast(sep, "", a);
      assert "" + a == a;
      assert (a + [sep] + b)[..|a|] == a;
    } else {
      var b' := b[..|b| - 1];
      SplitFirstField(sep, a, b');
      assert (a + [sep] + b)[..|a + [sep] + b| - 1] == a + [sep] + b';
    }
  }
}
