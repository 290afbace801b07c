/** Line ingestion, first half: a raw line becomes numeric fields
    (tool.py, `handle_serial_data`, the split and the list comprehension),
    and the fields become one sample by start- and end-relative position. */
module Fields {
  import opened Text
  import opened Wrappers

  /** Number of characters after the first '.', or 0 when there is none. */
  function FracLen(f: string): (n: nat)
    ensures n <= |f|
  {
    if '.' in f then |f| - 1 - FirstIndex(f, '.') else 0
  }

  /** Reference definition of the fields that pass: ASCII digits with at
      most one dot and at least one digit, i.e. `ddd`, `ddd.ddd`, `.ddd` or
      `ddd.`. */
  predicate DecimalLiteral(f: string) {
    if '.' in f then
      var k := FirstIndex(f, '.');
      |f| > 1 && AllDigits(f[..k]) && AllDigits(f[k + 1..])
    else IsDigitString(f)
  }

  /** `f.replace('.', '', 1).isdigit()` holds exactly for decimal literals. */
  lemma DigitsAroundDot(f: string)
    ensures IsDigitString(RemoveFirst(f, '.')) <==> DecimalLiteral(f)
  {
    if '.' in f {
      var k := FirstIndex(f, '.');
      var a, b := f[..k], f[k + 1..];
      assert f == a + "." + b;
      RemoveFirstDot(a, b);
      if AllDigits(a + b) {
        assert AllDigits(a) by {
          forall i | 0 <= i < |a| ensures IsDigit(a[i]) { assert a[i] == (a + b)[i]; }
        }
        assert AllDigits(b) by {
          forall i | 0 <= i < |b| ensures IsDigit(b[i]) { assert b[i] == (a + b)[|a| + i]; }
        }
      }
      if AllDigits(a) && AllDigits(b) {
        DigitsValueAppend(a, b);
      }
    }
  }

  /** The field passes the source's test: without its first '.', a non-empty
      run of digits. */
  predicate Numeric(f: string)
    ensures Numeric(f) <==> DecimalLiteral(f)
  {
    DigitsAroundDot(f);
    IsDigitString(RemoveFirst(f, '.'))
  }

  /** The exact value Python's `float(f)` denotes for a field that passes the
      test: its digits read as an integer, scaled down by the fractional length. */
  function ToNum(f: string): (v: real)
    requires Numeric(f)
    ensures v >= 0.0
    ensures '.' !in f ==> v == DigitsValue(f) as real
  {
    DigitsValue(RemoveFirst(f, '.')) as real / Pow10(FracLen(f)) as real
  }

  /** One field of the list comprehension: its number, or 0 when it fails the test. */
  function Coerce(f: string): (v: real)
    ensures v >= 0.0
    ensures !DecimalLiteral(f) ==> v == 0.0
  {
    if Numeric(f) then ToNum(f) else 0.0
  }

  /** Removing the first '.' of `a + "." + b` leaves `a + b` when `a` has no dot. */
  lemma {:induction false} RemoveFirstDot(a: string, b: string)
    requires '.' !in a
    ensures RemoveFirst(a + "." + b, '.') == a + b
    decreases |a|
  {
    var f := a + "." + b;
    if a == [] {
      assert f == "." + b && f[1..] == b;
    } else {
      var a' := a[1..];
      assert a[0] in a && a[0] != '.';
      assert '.' !in a' by {
        forall i | 0 <= i < |a'| ensures a'[i] != '.' { assert a'[i] == a[i + 1]; }
      }
      RemoveFirstDot(a', b);
      assert f[0] == a[0] && f[1..] == a' + "." + b;
      assert RemoveFirst(f, '.') == [a[0]] + RemoveFirst(f[1..], '.');
      assert [a[0]] + (a' + b) == a + b;
    }
  }

  /** A decimal literal `a.b` is coerced to a + b / 10^|b|: "12.5" records 12.5,
      ".5" records 0.5 and "5." records 5. */
  lemma CoerceDecimal(a: string, b: string)
    requires AllDigits(a) && AllDigits(b) && |a| + |b| > 0
    ensures Coerce(a + "." + b) == DigitsValue(a) as real + DigitsValue(b) as real / Pow10(|b|) as real
  {
    var f := a + "." + b;
    var x, y, p := DigitsValue(a), DigitsValue(b), Pow10(|b|);
    DecimalShape(a, b);
    DigitsValueAppend(a, b);
    ScaleDown(DigitsValue(a + b), x, y, p);
  }

  /** Where the dot of `a.b` sits, for digit runs `a` and `b`. */
  lemma DecimalShape(a: string, b: string)
    requires AllDigits(a) && AllDigits(b) && |a| + |b| > 0
    ensures AllDigits(a + b)
    ensures RemoveFirst(a + "." + b, '.') == a + b
    ensures FracLen(a + "." + b) == |b|
  {
    var f := a + "." + b;
    assert '.' !in a by {
      forall i | 0 <= i < |a| ensures a[i] != '.' { assert IsDigit(a[i]); }
    }
    RemoveFirstDot(a, b);
    DigitsValueAppend(a, b);
    assert f[|a|] == '.' && '.' !in f[..|a|] by { assert f[..|a|] == a; }
    FirstIndexIs(f, |a|);
  }

  lemma ScaleDown(n: nat, x: nat, y: nat, p: nat)
    requires p > 0 && n == x * p + y
    ensures n as real / p as real == x as real + y as real / p as real
  {
    var X, Y, P := x as real, y as real, p as real;
    assert (x * p) as real == X * P;
    assert (X * P + Y) / P == X + Y / P;
  }

  lemma {:induction false} FirstIndexIs(s: string, k: nat)
    requires k < |s| && s[k] == '.' && '.' !in s[..k]
    ensures '.' in s && FirstIndex(s, '.') == k
  {
    if k > 0 {
      assert s[0] == s[..k][0];
      assert s[1..][..k - 1] == s[..k][1..];
      FirstIndexIs(s[1..], k - 1);
    }
  }

  /** A field of plain digits is coerced to the integer it spells. */
  lemma CoerceInteger(a: string)
    requires IsDigitString(a)
    ensures Coerce(a) == DigitsValue(a) as real
  {
    assert '.' !in a by {
      forall i | 0 <= i < |a| ensures a[i] != '.' { assert IsDigit(a[i]); }
    }
  }

  /** A field whose first character is neither a digit nor '.' records 0:
      a sign ("-1.5", "+2"), a blank (" 2") or a word ("bad"). */
  lemma CoerceNonDigitLead(f: string)
    requires |f| > 0 && f[0] != '.' && !IsDigit(f[0])
    ensures Coerce(f) == 0.0
  {
    var r := RemoveFirst(f, '.');
    assert r == [f[0]] + RemoveFirst(f[1..], '.');
    assert !IsDigit(r[0]);
  }

  /** A field with a second '.' records 0 ("1.2.3"). */
  lemma {:induction false} CoerceTwoDots(a: string, b: string, c: string)
    requires '.' !in a
    ensures Coerce(a + "." + b + "." + c) == 0.0
  {
    var f := a + "." + b + "." + c;
    assert f == a + "." + (b + "." + c);
    RemoveFirstDot(a, b + "." + c);
    var r := a + (b + "." + c);
    assert r[|a| + |b|] == '.';
    assert !IsDigitString(r);
  }

  /** Python's parse of a line: its comma fields, each coerced; `None` when the
      line has fewer than four fields. */
  function ParseLine(line: string): (r: Option<seq<real>>)
    ensures r.None? <==> |Split(line, ',')| < 4
    ensures r.Some? ==> |r.value| == |Split(line, ',')|
    ensures r.Some? ==> forall i :: 0 <= i < |r.value| ==> r.value[i] >= 0.0
  {
    var parts := Split(line, ',');
    if |parts| < 4 then None
    else Some(seq(|parts|, i requires 0 <= i < |parts| => Coerce(parts[i])))
  }

  /** One reading: the laser distance and the three IMU axes. */
  datatype Sample = Sample(laser: real, imuX: real, imuY: real, imuZ: real)

  /** Field 0 is the laser; the last three are IMU x, z, y in that order. */
  function ToSample(vals: seq<real>): (s: Sample)
    requires |vals| >= 4
    ensures s.laser == vals[0]
    ensures [s.imuX, s.imuZ, s.imuY] == vals[|vals| - 3..]
  {
    var n := |vals|;
    Sample(vals[0], vals[n - 3], vals[n - 1], vals[n - 2])
  }

  /** The sample an accepted line yields, read off its fields: laser = f[0],
      IMU x = f[n-3], IMU y = f[n-1], IMU z = f[n-2], each coerced. */
  lemma {:induction false} LineToSample(line: string)
    requires ParseLine(line).Some?
    ensures var f := Split(line, ','); var n := |f|;
      n >= 4 &&
      ToSample(ParseLine(line).value)
        == Sample(Coerce(f[0]), Coerce(f[n - 3]), Coerce(f[n - 1]), Coerce(f[n - 2]))
  {
  }
}
