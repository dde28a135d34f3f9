/** Small helpers the bot takes from its utility modules and from the JavaScript
    runtime: nullable values, template-literal numbers, `split`/`join`,
    `toLowerCase`, `includes` and `chunk`. */
module Utils {

  /** A value that JavaScript may leave `null` or `undefined`. */
  datatype Option<+T> = None | Some(value: T)

  /** JavaScript truthiness of a nullable string: `null`, `undefined` and `""` are falsy. */
  predicate Truthy(s: Option<string>)
  {
    s.Some? && s.value != ""
  }

  // ---------------------------------------------------------------------------
  // Numbers inside template literals (`${n}`), for non-negative integers.

  predicate IsDecimal(s: string)
  {
    forall i :: 0 <= i < |s| ==> '0' <= s[i] <= '9'
  }

  function DigitChar(d: nat): (c: char)
    requires d < 10
    ensures '0' <= c <= '9' && c as int - '0' as int == d
  {
    ('0' as int + d) as char
  }

  /** The decimal text of `n`, without sign or leading zeros. */
  function NatToString(n: nat): (s: string)
    ensures |s| >= 1 && IsDecimal(s)
    ensures |s| > 1 ==> s[0] != '0'
  {
    if n < 10 then [DigitChar(n)] else NatToString(n / 10) + [DigitChar(n % 10)]
  }

  /** Reads a run of decimal digits back as a number. */
  function DecimalValue(s: string): nat
    requires IsDecimal(s)
  {
    if s == [] then 0 else DecimalValue(s[..|s| - 1]) * 10 + (s[|s| - 1] as int - '0' as int)
  }

  lemma {:induction false} DecimalRoundTrip(n: nat)
    ensures DecimalValue(NatToString(n)) == n
  {
    if n >= 10 {
      var s := NatToString(n);
      assert s[..|s| - 1] == NatToString(n / 10);
      DecimalRoundTrip(n / 10);
    }
  }

  /** Distinct numbers print differently. */
  lemma NatToStringInjective(m: nat, n: nat)
    ensures NatToString(m) == NatToString(n) ==> m == n
  {
    DecimalRoundTrip(m);
    DecimalRoundTrip(n);
  }

  /** `Array.prototype.map`. */
  function Map<A, B>(f: A -> B, s: seq<A>): (r: seq<B>)
    ensures |r| == |s| && forall i :: 0 <= i < |s| ==> r[i] == f(s[i])
  {
    seq(|s|, i requires 0 <= i < |s| => f(s[i]))
  }

  // ---------------------------------------------------------------------------
  // `Array.prototype.join` and `String.prototype.split` with a one-character separator.

  function Join(parts: seq<string>, sep: string): string
  {
    if |parts| == 0 then ""
    else if |parts| == 1 then parts[0]
    else parts[0] + sep + Join(parts[1..], sep)
  }

  /** `s.split(sep)`: never empty, no part contains `sep`, and joining the parts
      with `sep` gives `s` back. */
  function Split(s: string, sep: char): (parts: seq<string>)
    ensures |parts| >= 1
    ensures forall i :: 0 <= i < |parts| ==> sep !in parts[i]
    ensures Join(parts, [sep]) == s
  {
    if s == [] then [""]
    else
      var rest := Split(s[1..], sep);
      if s[0] == sep then [""] + rest
      else [[s[0]] + rest[0]] + rest[1..]
  }

  /** Splitting a joined list on the separator gives back the list, when no
      element holds the separator. */
  lemma {:induction false} SplitJoin(parts: seq<string>, sep: char)
    requires |parts| >= 1
    requires forall i :: 0 <= i < |parts| ==> sep !in parts[i]
    ensures Split(Join(parts, [sep]), sep) == parts
  {
    if |parts| == 1 {
      SplitWithout(parts[0], sep);
    } else {
      SplitJoin(parts[1..], sep);
      SplitPrefix(parts[0], Join(parts[1..], [sep]), sep);
    }
  }

  /** A string holding the separator splits into at least two parts. */
  lemma {:induction false} SplitAtSeparator(s: string, sep: char)
    requires sep in s
    ensures |Split(s, sep)| >= 2
  {
    if s[0] != sep {
      SplitAtSeparator(s[1..], sep);
    }
  }

  lemma {:induction false} SplitWithout(s: string, sep: char)
    requires sep !in s
    ensures Split(s, sep) == [s]
  {
    if s != [] {
      SplitWithout(s[1..], sep);
    }
  }

  lemma {:induction false} SplitPrefix(head: string, tail: string, sep: char)
    requires sep !in head
    ensures Split(head + [sep] + tail, sep) == [head] + Split(tail, sep)
  {
    if head == [] {
      assert ([sep] + tail)[1..] == tail;
    } else {
      var s := head + [sep] + tail;
      assert s[0] == head[0] && s[1..] == head[1..] + [sep] + tail;
      SplitPrefix(head[1..], tail, sep);
      assert [head[0]] + head[1..] == head;
    }
  }

  // ---------------------------------------------------------------------------
  // `String.prototype.toLowerCase`, on the ASCII letters.

  function ToLowerChar(c: char): char
  {
    if 'A' <= c <= 'Z' then (c as int - 'A' as int + 'a' as int) as char else c
  }

  function ToLower(s: string): string
  {
    seq(|s|, i requires 0 <= i < |s| => ToLowerChar(s[i]))
  }

  // ---------------------------------------------------------------------------
  // `String.prototype.includes`.

  /** `t` occurs in `s` at index `k`. */
  predicate OccursAt(s: string, t: string, k: int)
  {
    0 <= k && k + |t| <= |s| && s[k..k + |t|] == t
  }

  predicate Includes(s: string, t: string)
  {
    exists k :: 0 <= k <= |s| && OccursAt(s, t, k)
  }

  // ---------------------------------------------------------------------------
  // `chunk` of @sapphire/utilities and its inverse, concatenation.

  function Flatten<T>(ss: seq<seq<T>>): seq<T>
  {
    if ss == [] then [] else ss[0] + Flatten(ss[1..])
  }

  lemma {:induction false} FlattenAppend<T>(a: seq<seq<T>>, b: seq<seq<T>>)
    ensures Flatten(a + b) == Flatten(a) + Flatten(b)
  {
    if a == [] {
      assert a + b == b;
    } else {
      assert (a + b)[0] == a[0];
      assert (a + b)[1..] == a[1..] + b;
      FlattenAppend(a[1..], b);
    }
  }

  /** Cuts `s` into consecutive pieces of `size` elements, the last one possibly
      shorter: ceil(|s| / size) pieces, none empty, none longer than `size`, whose
      concatenation is `s`. */
  function Chunk<T>(s: seq<T>, size: nat): (chunks: seq<seq<T>>)
    requires size > 0
    ensures |chunks| == (|s| + size - 1) / size
    ensures forall i :: 0 <= i < |chunks| ==> 0 < |chunks[i]| <= size
    ensures forall i :: 0 <= i < |chunks| - 1 ==> |chunks[i]| == size
    ensures Flatten(chunks) == s
    decreases |s|
  {
    if s == [] then
      DivUnique(size - 1, size, 0, size - 1);
      []
    else if |s| <= size then
      DivUnique(|s| + size - 1, size, 1, |s| - 1);
      [s]
    else
      var rest := Chunk(s[size..], size);
      var chunks := [s[..size]] + rest;
      assert chunks[1..] == rest;
      assert Flatten(chunks) == s[..size] + s[size..] == s;
      DivStep(|s| - 1, size);
      assert |s| + size - 1 == (|s| - 1) + size;
      chunks
  }

  lemma DivStep(x: nat, k: nat)
    requires k > 0
    ensures (x + k) / k == x / k + 1
  {
    var q, r := x / k, x % k;
    assert x == q * k + r && 0 <= r < k;
    assert x + k == (q + 1) * k + r;
    DivUnique(x + k, k, q + 1, r);
  }

  lemma DivUnique(n: nat, k: nat, q: nat, r: nat)
    requires k > 0 && r < k && n == q * k + r
    ensures n / k == q
  {
    var q', r' := n / k, n % k;
    assert n == q' * k + r';
    if q' < q {
      MulMonotone(q' + 1, q, k);
    } else if q' > q {
      MulMonotone(q + 1, q', k);
    }
  }

  lemma {:induction false} MulMonotone(a: nat, b: nat, k: nat)
    requires a <= b
    ensures a * k <= b * k
  {
    if a < b {
      MulMonotone(a, b - 1, k);
      assert (b - 1) * k + k == b * k;
    }
  }
}
