/** Values shared by both encoders: bytes, optional results, little-endian
    integer fields, the char-to-byte mapping of a Uint8Array store, and the
    concatenation of a list of buffers. */
module Common {

  /** One element of a Uint8Array. */
  newtype byte = x: int | 0 <= x < 256

  datatype Option<T> = None | Some(value: T)

  /** 256^k. */
  function Pow256(k: nat): (r: nat)
    ensures r >= 1
  {
    if k == 0 then 1 else 256 * Pow256(k - 1)
  }

  /** The `width` little-endian bytes of n: byte k is (n >> 8k) & 0xff.
      Every number the writers store is a non-negative integer, so the
      32-bit shift-and-mask of JavaScript yields exactly n / 256^k % 256. */
  function LittleEndian(n: nat, width: nat): (r: seq<byte>)
    ensures |r| == width
  {
    if width == 0 then [] else [(n % 256) as byte] + LittleEndian(n / 256, width - 1)
  }

  /** The two-byte field written by `write2`. */
  function LE2(n: nat): (r: seq<byte>)
    ensures |r| == 2
  {
    LittleEndian(n, 2)
  }

  /** The four-byte field written by `write4`. */
  function LE4(n: nat): (r: seq<byte>)
    ensures |r| == 4
  {
    LittleEndian(n, 4)
  }

  /** The number a reader obtains from little-endian bytes. */
  function DecodeLE(bs: seq<byte>): nat
  {
    if bs == [] then 0 else bs[0] as nat + 256 * DecodeLE(bs[1..])
  }

  lemma MulAtLeast(m: nat, k: nat)
    requires k >= 1
    ensures m * k >= m
  {
    if k > 1 {
      MulAtLeast(m, k - 1);
      assert m * k == m * (k - 1) + m;
    }
  }

  lemma MulDistributes(m: nat, a: nat, b: nat)
    requires a >= b
    ensures m * a == m * b + m * (a - b)
  {
  }

  /** Division with remainder has a unique answer. */
  lemma DivModUnique(n: nat, m: nat, q: nat, r: nat)
    requires m > 0 && r < m && n == m * q + r
    ensures n / m == q && n % m == r
  {
    var q', r' := n / m, n % m;
    if q' > q {
      MulDistributes(m, q', q);
      MulAtLeast(m, q' - q);
      assert false;
    } else if q' < q {
      MulDistributes(m, q, q');
      MulAtLeast(m, q - q');
      assert false;
    }
  }

  /** (n / 256) / p == n / (256 p), and the remainders fit together. */
  lemma DivModShift(n: nat, p: nat)
    requires p > 0
    ensures (n / 256) / p == n / (256 * p)
    ensures n % (256 * p) == n % 256 + 256 * ((n / 256) % p)
  {
    var q, r := n / 256, n % 256;
    var a, b := q / p, q % p;
    assert q == p * a + b;
    assert n == 256 * q + r;
    assert n == (256 * p) * a + (256 * b + r) by {
      assert 256 * q == 256 * (p * a) + 256 * b;
      assert 256 * (p * a) == (256 * p) * a;
    }
    assert 256 * b + r < 256 * p by {
      assert b <= p - 1;
      assert 256 * b <= 256 * (p - 1);
    }
    DivModUnique(n, 256 * p, a, 256 * b + r);
  }

  /** Byte k of the field is (n >> 8k) & 0xff. */
  lemma {:induction false} LittleEndianAt(n: nat, width: nat, k: nat)
    requires k < width
    ensures LittleEndian(n, width)[k] as int == n / Pow256(k) % 256
  {
    if k > 0 {
      LittleEndianAt(n / 256, width - 1, k - 1);
      DivModShift(n, Pow256(k - 1));
    }
  }

  /** Reading the field back gives n modulo 256^width: `write2` keeps
      n mod 2^16 and `write4` keeps n mod 2^32. */
  lemma {:induction false} DecodeLittleEndian(n: nat, width: nat)
    ensures DecodeLE(LittleEndian(n, width)) == n % Pow256(width)
  {
    if width > 0 {
      var bs := LittleEndian(n, width);
      assert bs[1..] == LittleEndian(n / 256, width - 1);
      DecodeLittleEndian(n / 256, width - 1);
      DivModShift(n, Pow256(width - 1));
    }
  }

  /** A number that fits the field is read back unchanged. */
  lemma DecodeLittleEndianFits(n: nat, width: nat)
    requires n < Pow256(width)
    ensures DecodeLE(LittleEndian(n, width)) == n
  {
    DecodeLittleEndian(n, width);
  }

  /** The byte a Uint8Array stores for a character: its code modulo 256. */
  function Latin1Byte(c: char): byte
  {
    (c as int % 256) as byte
  }

  /** A string stored character by character into a Uint8Array. */
  function Latin1(s: string): (r: seq<byte>)
    ensures |r| == |s|
    ensures forall i :: 0 <= i < |s| ==> r[i] as int == s[i] as int % 256
  {
    seq(|s|, i requires 0 <= i < |s| => Latin1Byte(s[i]))
  }

  /** A string stored into a new Uint8Array of its length, one
      `charCodeAt` per element (`writeStr`, and the last loop of
      `createPDF`). */
  method StoreChars(s: string) returns (arr: array<byte>)
    ensures fresh(arr)
    ensures arr[..] == Latin1(s)
  {
    arr := new byte[|s|];
    for i := 0 to |s|
      invariant arr[..i] == Latin1(s)[..i]
    {
      arr[i] := Latin1Byte(s[i]);
    }
    assert arr[..] == arr[..|s|];
  }

  /** Storing distinct strings of one-byte characters gives distinct bytes. */
  lemma Latin1Injective(s: string, t: string)
    requires forall i :: 0 <= i < |s| ==> s[i] as int < 256
    requires forall i :: 0 <= i < |t| ==> t[i] as int < 256
    requires Latin1(s) == Latin1(t)
    ensures s == t
  {
    assert |s| == |Latin1(s)| == |t|;
    forall i | 0 <= i < |s| ensures s[i] == t[i] {
      assert Latin1(s)[i] == Latin1(t)[i];
    }
  }

  /** The buffers of a list, one after another (a `join("")`, or the
      copy of every part into one array). */
  function Flatten<T>(parts: seq<seq<T>>): seq<T>
  {
    if parts == [] then [] else Flatten(parts[..|parts| - 1]) + parts[|parts| - 1]
  }

  lemma FlattenAppend<T>(parts: seq<seq<T>>, p: seq<T>)
    ensures Flatten(parts + [p]) == Flatten(parts) + p
  {
    assert (parts + [p])[..|parts|] == parts;
  }

  /** Pushing two buffers extends the contents by both. */
  lemma FlattenAppendPair<T>(parts: seq<seq<T>>, a: seq<T>, b: seq<T>)
    ensures Flatten(parts + [a] + [b]) == Flatten(parts) + (a + b)
  {
    FlattenAppend(parts, a);
    FlattenAppend(parts + [a], b);
  }

  /** Joining two lists of buffers joins their contents. */
  lemma {:induction false} FlattenConcat<T>(a: seq<seq<T>>, b: seq<seq<T>>)
    ensures Flatten(a + b) == Flatten(a) + Flatten(b)
    decreases |b|
  {
    if b == [] {
      assert a + b == a;
    } else {
      var b' := b[..|b| - 1];
      assert a + b == (a + b') + [b[|b| - 1]];
      FlattenAppend(a + b', b[|b| - 1]);
      FlattenConcat(a, b');
      FlattenAppend(b', b[|b| - 1]);
      assert b == b' + [b[|b| - 1]];
    }
  }

  /** A prefix of the parts flattens to a prefix of the whole. */
  lemma FlattenPrefix<T>(parts: seq<seq<T>>, j: nat)
    requires j <= |parts|
    ensures Flatten(parts) == Flatten(parts[..j]) + Flatten(parts[j..])
  {
    assert parts == parts[..j] + parts[j..];
    FlattenConcat(parts[..j], parts[j..]);
  }

  /** A slice of a slice is a slice of the whole. */
  lemma SliceOfSlice<T>(s: seq<T>, a: nat, b: nat, x: nat, y: nat)
    requires a <= b <= |s| && x <= y <= b - a
    ensures s[a..b][x..y] == s[a + x..a + y]
  {
    var t := s[a..b];
    assert |t[x..y]| == |s[a + x..a + y]|;
    forall k | 0 <= k < y - x
      ensures t[x..y][k] == s[a + x..a + y][k]
    {
      assert t[x..y][k] == t[x + k];
      assert t[x + k] == s[a + x + k];
    }
  }

  /** The part of a + b past a is b. */
  lemma SliceOfConcat<T>(a: seq<T>, b: seq<T>, x: nat, y: nat)
    requires x <= y <= |b|
    ensures (a + b)[|a| + x..|a| + y] == b[x..y]
  {
  }

  /** A slice within the front part of a + b lies in a. */
  lemma SliceOfFront<T>(a: seq<T>, b: seq<T>, x: nat, y: nat)
    requires x <= y <= |a|
    ensures (a + b)[x..y] == a[x..y]
  {
  }

  /** Part k sits right after the parts before it. */
  lemma FlattenPartAt<T>(parts: seq<seq<T>>, k: nat)
    requires k < |parts|
    ensures |Flatten(parts[..k])| + |parts[k]| <= |Flatten(parts)|
    ensures Flatten(parts)[|Flatten(parts[..k])|..|Flatten(parts[..k])| + |parts[k]|] == parts[k]
  {
    FlattenPrefix(parts, k + 1);
    assert parts[..k + 1] == parts[..k] + [parts[k]];
    FlattenAppend(parts[..k], parts[k]);
    SliceOfFront(Flatten(parts[..k]) + parts[k], Flatten(parts[k + 1..]), |Flatten(parts[..k])|, |Flatten(parts[..k])| + |parts[k]|);
    SliceOfConcat(Flatten(parts[..k]), parts[k], 0, |parts[k]|);
  }

  /** A prefix one longer is the prefix and the next element. */
  lemma PrefixStep<T>(s: seq<T>, i: nat)
    requires i < |s|
    ensures s[..i + 1] == s[..i] + [s[i]]
  {
  }

  /** Two adjacent slices that are known make a longer known prefix. */
  lemma JoinSlices<T>(s: seq<T>, a: nat, b: nat, front: seq<T>, next: seq<T>)
    requires a <= b <= |s|
    requires s[..a] == front && s[a..b] == next
    ensures s[..b] == front + next
  {
    assert s[..b] == s[..a] + s[a..b];
  }
}
