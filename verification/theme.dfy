/**
  The colour theme and how the composer cycles through it.

  The theme is an object keyed by small slot numbers. The composer takes its
  values with `Object.values`, which lists integer keys in ascending order,
  and gives item `i` the value at `i % colors.length`. With an empty theme
  that index is `NaN`, the lookup is `undefined`, and the template literal
  prints the text "undefined".
*/
module Theme {
  import opened Colors

  /** Slot number to stored colour text. */
  type ColorTheme = map<nat, string>

  predicate StrictlyIncreasing(ks: seq<nat>) {
    forall i, j :: 0 <= i < j < |ks| ==> ks[i] < ks[j]
  }

  predicate IsMinimum(k: nat, keys: set<nat>) {
    k in keys && forall j :: j in keys ==> k <= j
  }

  lemma {:induction false} MinimumExists(keys: set<nat>)
    requires keys != {}
    ensures exists k :: IsMinimum(k, keys)
    decreases |keys|
  {
    var x :| x in keys;
    var rest := keys - {x};
    if rest == {} {
      assert keys == {x};
      assert IsMinimum(x, keys);
    } else {
      assert |rest| < |keys|;
      MinimumExists(rest);
      var m :| IsMinimum(m, rest);
      var k := if x < m then x else m;
      assert keys == rest + {x};
      assert IsMinimum(k, keys);
    }
  }

  /** The least key. */
  function Minimum(keys: set<nat>): (m: nat)
    requires keys != {}
    ensures IsMinimum(m, keys)
  {
    MinimumExists(keys);
    var k :| IsMinimum(k, keys);
    k
  }

  /** The keys in ascending order, as `Object.values` visits integer keys. */
  function KeysAscending(keys: set<nat>): (ks: seq<nat>)
    ensures |ks| == |keys|
    ensures forall k :: k in keys <==> k in ks
    ensures StrictlyIncreasing(ks)
    decreases |keys|
  {
    if keys == {} then []
    else
      var k := Minimum(keys);
      var tail := KeysAscending(keys - {k});
      PrependLeast(k, keys, tail);
      [k] + tail
  }

  /** Putting the least key before the ascending rest keeps the order and the membership. */
  lemma PrependLeast(k: nat, keys: set<nat>, tail: seq<nat>)
    requires IsMinimum(k, keys)
    requires |tail| == |keys - {k}|
    requires forall j :: j in keys - {k} <==> j in tail
    requires StrictlyIncreasing(tail)
    ensures |[k] + tail| == |keys|
    ensures forall j :: j in keys <==> j in [k] + tail
    ensures StrictlyIncreasing([k] + tail)
  {
    var ks := [k] + tail;
    forall i, j | 0 <= i < j < |ks|
      ensures ks[i] < ks[j]
    {
      if i == 0 {
        assert ks[j] == tail[j - 1];
        assert ks[j] in keys - {k};
      } else {
        assert ks[i] == tail[i - 1] && ks[j] == tail[j - 1];
      }
    }
  }

  /** `Object.values(colorTheme)`. */
  function ThemeValues(theme: ColorTheme): (colors: seq<string>)
    ensures |colors| == |theme|
    ensures forall i :: 0 <= i < |colors| ==> colors[i] in theme.Values
  {
    var ks := KeysAscending(theme.Keys);
    seq(|ks|, i requires 0 <= i < |ks| => theme[ks[i]])
  }

  /** The text `${colors[i % colors.length]}` prints for item `i`. */
  function FillAt(colors: seq<string>, i: nat): (fill: string)
    ensures |colors| == 0 ==> fill == "undefined"
    ensures |colors| > 0 ==> fill in colors
  {
    if |colors| == 0 then "undefined" else colors[i % |colors|]
  }

  /**
    The fills cycle through the colours: the first `|colors|` items take the
    colours in order, and every later item repeats the item `|colors|` before it.
  */
  lemma FillAtCycles(colors: seq<string>, i: nat)
    requires |colors| > 0
    ensures i < |colors| ==> FillAt(colors, i) == colors[i]
    ensures FillAt(colors, i + |colors|) == FillAt(colors, i)
  {
    ModuloPeriod(i, |colors|);
  }

  lemma ModuloPeriod(i: nat, n: nat)
    requires n > 0
    ensures (i + n) % n == i % n
  {
    var q, r := i / n, i % n;
    assert i + n == (q + 1) * n + r;
    ModuloOfMultiplePlus(q + 1, n, r);
  }

  lemma ModuloOfMultiplePlus(q: nat, n: nat, r: nat)
    requires r < n
    ensures (q * n + r) % n == r
  {
    var k := q * n + r;
    assert k / n * n + k % n == k;
    if k / n < q {
      MultiplyMonotone(k / n + 1, q, n);
      assert false;
    } else if k / n > q {
      MultiplyMonotone(q + 1, k / n, n);
      assert false;
    }
  }

  lemma MultiplyMonotone(a: int, b: int, n: nat)
    ensures a <= b ==> a * n <= b * n
  {
    if a <= b {
      assert b * n == a * n + (b - a) * n;
    }
  }

  /** A theme keyed by exactly `0 .. n - 1`. */
  predicate DenseTheme(theme: ColorTheme, n: nat) {
    && (forall k :: k in theme ==> k < n)
    && (forall k: nat :: k < n ==> k in theme)
  }

  lemma HasMember(a: seq<nat>)
    requires |a| > 0
    ensures exists k :: k in a
  {
    assert a[0] in a;
  }

  lemma {:induction false} StrictlyIncreasingUnique(a: seq<nat>, b: seq<nat>)
    requires StrictlyIncreasing(a) && StrictlyIncreasing(b)
    requires forall k :: k in a <==> k in b
    ensures a == b
    decreases |a|
  {
    if |a| > 0 && |b| > 0 {
      assert a[0] == b[0] by {
        assert a[0] in b && b[0] in a;
        var i :| 0 <= i < |b| && b[i] == a[0];
        var j :| 0 <= j < |a| && a[j] == b[0];
        assert a[0] <= a[j];
        assert b[0] <= b[i];
      }
      forall k ensures k in a[1..] <==> k in b[1..] {
        if k in a[1..] {
          var i :| 0 <= i < |a| - 1 && a[1..][i] == k;
          assert a[i + 1] == k && a[0] < k;
          assert k in b;
          var j :| 0 <= j < |b| && b[j] == k;
          assert j != 0;
          assert b[1..][j - 1] == k;
        }
        if k in b[1..] {
          var i :| 0 <= i < |b| - 1 && b[1..][i] == k;
          assert b[i + 1] == k && b[0] < k;
          assert k in a;
          var j :| 0 <= j < |a| && a[j] == k;
          assert j != 0;
          assert a[1..][j - 1] == k;
        }
      }
      StrictlyIncreasingUnique(a[1..], b[1..]);
      assert a == [a[0]] + a[1..];
      assert b == [b[0]] + b[1..];
    } else if |a| > 0 {
      HasMember(a);
      assert false;
    } else if |b| > 0 {
      HasMember(b);
      assert false;
    }
  }

  /**
    For a theme keyed by `0 .. n - 1` the values come out slot by slot, so
    item `i` takes the colour stored in slot `i % n`.
  */
  lemma DenseThemeValues(theme: ColorTheme, n: nat)
    requires DenseTheme(theme, n)
    ensures ThemeValues(theme) == seq(n, i requires 0 <= i < n => theme[i])
  {
    var ks := KeysAscending(theme.Keys);
    var slots := seq(n, i requires 0 <= i < n => i as nat);
    forall k ensures k in ks <==> k in slots {
      if k in slots {
        var i :| 0 <= i < n && slots[i] == k;
        assert k in theme;
      }
      if k in ks {
        assert k in theme;
        assert slots[k] == k;
      }
    }
    StrictlyIncreasingUnique(ks, slots);
  }

  /** With a theme keyed by `0 .. n - 1` (n > 0), item `i` is filled with slot `i % n`. */
  lemma DenseThemeFill(theme: ColorTheme, n: nat, i: nat)
    requires n > 0 && DenseTheme(theme, n)
    ensures i % n in theme
    ensures FillAt(ThemeValues(theme), i) == theme[i % n]
  {
    DenseThemeValues(theme, n);
  }

  /** The theme built by the loops of `randomizeAll` and of the first effect: slot `i` gets draw `i`. */
  function NewTheme(draws: seq<HslDraw>): (theme: ColorTheme)
    requires forall i :: 0 <= i < |draws| ==> ValidThemeDraw(draws[i])
    ensures DenseTheme(theme, |draws|)
    ensures forall i :: 0 <= i < |draws| ==> theme[i] == ThemeText(draws[i])
    ensures ThemeTexts(theme)
  {
    map k: nat | k < |draws| :: ThemeText(draws[k])
  }

  /** Every slot holds the printed text of a theme-range colour. */
  ghost predicate ThemeTexts(theme: ColorTheme) {
    forall k :: k in theme ==> IsThemeText(theme[k])
  }

  /** Storing a theme colour text in one slot keeps every slot a theme colour text. */
  lemma ThemeTextsUpdate(theme: ColorTheme, index: nat, t: string)
    requires ThemeTexts(theme)
    requires IsThemeText(t)
    ensures ThemeTexts(theme[index := t])
  {
    var updated := theme[index := t];
    forall k | k in updated
      ensures IsThemeText(updated[k])
    {
      if k != index {
        assert updated[k] == theme[k];
      }
    }
  }
}
