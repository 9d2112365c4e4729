/**
  The byte-level library behaviour the protocol layer relies on: big-endian
  integers as `encoding/binary` writes them, and the `bytes.SplitN` and
  `bytes.Replace` operations with a single NUL byte as separator. `Join` is
  this model's own definition of a buffer written field by field with a NUL
  between fields. Go strings are byte sequences, so they are `seq<byte>` here
  too.
*/
module Bytes {
  import opened Wrappers

  type byte = b: int | 0 <= b < 0x100

  /** The field separator of every multi-field payload. */
  const NUL: byte := 0

  // ---------------------------------------------------------------------------
  // Big-endian unsigned integers

  /** 256 to the power k: one more than the largest value k bytes can hold. */
  function Pow256(k: nat): (r: nat)
    ensures r >= 1
  {
    if k == 0 then 1 else 0x100 * Pow256(k - 1)
  }

  /** The k-byte big-endian encoding of x, most significant byte first. */
  function BigEndian(x: nat, k: nat): (r: seq<byte>)
    requires x < Pow256(k)
    ensures |r| == k
  {
    if k == 0 then [] else BigEndian(x / 0x100, k - 1) + [x % 0x100]
  }

  /** The unsigned integer that the big-endian bytes s stand for. */
  function FromBigEndian(s: seq<byte>): (r: nat)
    ensures r < Pow256(|s|)
  {
    if s == [] then 0 else FromBigEndian(s[..|s| - 1]) * 0x100 + s[|s| - 1]
  }

  /** Reading back what was written gives the value that was written. */
  lemma {:induction false} BigEndianInverse(x: nat, k: nat)
    requires x < Pow256(k)
    ensures FromBigEndian(BigEndian(x, k)) == x
  {
    if k > 0 {
      var s := BigEndian(x, k);
      assert s[..k - 1] == BigEndian(x / 0x100, k - 1);
      BigEndianInverse(x / 0x100, k - 1);
    }
  }

  /** Writing back what was read gives the bytes that were read. */
  lemma {:induction false} FromBigEndianInverse(s: seq<byte>)
    ensures BigEndian(FromBigEndian(s), |s|) == s
  {
    if s != [] {
      var init, last := s[..|s| - 1], s[|s| - 1];
      FromBigEndianInverse(init);
      BigEndianStep(FromBigEndian(s), FromBigEndian(init), last, |s|);
      assert s == init + [last];
    }
  }

  /**
    An integer whose top j bytes are hi and whose low k bytes are lo is written
    as hi's j bytes followed by lo's k bytes.
  */
  lemma {:induction false} BigEndianConcat(hi: nat, lo: nat, j: nat, k: nat)
    requires hi < Pow256(j) && lo < Pow256(k)
    ensures hi * Pow256(k) + lo < Pow256(j + k)
    ensures BigEndian(hi * Pow256(k) + lo, j + k) == BigEndian(hi, j) + BigEndian(lo, k)
  {
    var a, b := BigEndian(hi, j), BigEndian(lo, k);
    BigEndianInverse(hi, j);
    BigEndianInverse(lo, k);
    FromBigEndianConcat(a, b);
    assert FromBigEndian(a + b) == hi * Pow256(k) + lo && |a + b| == j + k;
    FromBigEndianInverse(a + b);
  }

  /** The last byte written is the value modulo 256; the bytes before it encode the rest. */
  lemma BigEndianStep(x: nat, a: nat, d: byte, k: nat)
    requires k > 0 && x < Pow256(k) && x == 0x100 * a + d
    ensures a < Pow256(k - 1)
    ensures BigEndian(x, k) == BigEndian(a, k - 1) + [d]
  {
    assert x / 0x100 == a && x % 0x100 == d;
  }

  /** Reading a concatenation: the first part shifted past the bytes of the second. */
  lemma {:induction false} FromBigEndianConcat(a: seq<byte>, b: seq<byte>)
    ensures FromBigEndian(a + b) == FromBigEndian(a) * Pow256(|b|) + FromBigEndian(b)
  {
    if b == [] {
      assert a + b == a;
    } else {
      var init, last := b[..|b| - 1], b[|b| - 1];
      assert (a + b)[..|a + b| - 1] == a + init;
      assert (a + b)[|a + b| - 1] == last;
      FromBigEndianConcat(a, init);
      ShiftByte(FromBigEndian(a), Pow256(|init|), FromBigEndian(init), last);
    }
  }

  lemma ShiftByte(x: int, p: int, y: int, d: int)
    ensures (x * p + y) * 0x100 + d == x * (0x100 * p) + (y * 0x100 + d)
  {
  }

  // ---------------------------------------------------------------------------
  // NUL-separated fields

  /** The index of the first NUL in s, if there is one. */
  function FindNul(s: seq<byte>): (r: Option<nat>)
    ensures r.Some? ==> r.value < |s| && s[r.value] == NUL
  {
    if s == [] then None
    else if s[0] == NUL then Some(0)
    else
      var t := FindNul(s[1..]);
      if t.Some? then Some(t.value + 1) else None
  }

  /** s holds no NUL byte, so it can be a field that is not the last one. */
  predicate NulFree(s: seq<byte>)
  {
    forall k :: 0 <= k < |s| ==> s[k] != NUL
  }

  /** FindNul finds nothing exactly in a NUL-free sequence. */
  lemma {:induction false} FindNulNone(s: seq<byte>)
    ensures FindNul(s).None? <==> NulFree(s)
  {
    if s != [] && s[0] != NUL {
      FindNulNone(s[1..]);
      assert forall k :: 0 < k < |s| ==> s[k] == s[1..][k - 1];
    }
  }

  /** How many NUL bytes s contains. */
  function CountNul(s: seq<byte>): nat
  {
    if s == [] then 0 else (if s[0] == NUL then 1 else 0) + CountNul(s[1..])
  }

  lemma CountNulSeparator(t: seq<byte>)
    ensures CountNul([NUL] + t) == 1 + CountNul(t)
  {
    assert ([NUL] + t)[1..] == t;
  }

  /** Counting over a concatenation adds the counts of its parts. */
  lemma {:induction false} CountNulConcat(a: seq<byte>, b: seq<byte>)
    ensures CountNul(a + b) == CountNul(a) + CountNul(b)
  {
    if a == [] {
      assert a + b == b;
    } else {
      assert (a + b)[0] == a[0] && (a + b)[1..] == a[1..] + b;
      CountNulConcat(a[1..], b);
    }
  }

  /** No NUL comes before the one FindNul finds. */
  lemma {:induction false} FindNulFirst(s: seq<byte>)
    requires FindNul(s).Some?
    ensures NulFree(s[..FindNul(s).value])
  {
    if s[0] != NUL {
      FindNulFirst(s[1..]);
      var p := s[..FindNul(s).value];
      assert p[1..] == s[1..][..FindNul(s[1..]).value];
    }
  }

  /** After a NUL-free prefix, the first NUL is the one that ends it. */
  lemma {:induction false} FindNulAfter(f: seq<byte>, t: seq<byte>)
    requires NulFree(f)
    ensures FindNul(f + [NUL] + t) == Some(|f|)
  {
    if f != [] {
      assert (f + [NUL] + t)[1..] == f[1..] + [NUL] + t;
      FindNulAfter(f[1..], t);
    }
  }

  /** The fields with one NUL between neighbours: what writing them into a buffer one after another, a NUL between each two, produces. */
  function Join(fields: seq<seq<byte>>): (r: seq<byte>)
    ensures |fields| >= 1 ==> |r| >= |fields| - 1
  {
    if |fields| == 0 then []
    else if |fields| == 1 then fields[0]
    else fields[0] + [NUL] + Join(fields[1..])
  }

  function Min(a: int, b: int): int
  {
    if a < b then a else b
  }

  /**
    `bytes.SplitN(s, []byte{0}, n)` for n >= 1: s cut at its first n - 1 NULs,
    the last field being everything after the last cut, NULs included.
  */
  function SplitN(s: seq<byte>, n: nat): (r: seq<seq<byte>>)
    requires n >= 1
    ensures 1 <= |r| <= n
    decreases n
  {
    if n == 1 then [s]
    else match FindNul(s)
      case None => [s]
      case Some(i) => [s[..i]] + SplitN(s[i + 1..], n - 1)
  }

  lemma SplitNUnfold(s: seq<byte>, n: nat)
    requires n > 1 && FindNul(s).Some?
    ensures var i := FindNul(s).value;
            SplitN(s, n) == [s[..i]] + SplitN(s[i + 1..], n - 1)
  {
  }

  lemma CutAtNul(s: seq<byte>, i: nat)
    requires i < |s| && s[i] == NUL
    ensures s == s[..i] + [NUL] + s[i + 1..]
  {
  }

  lemma JoinCons(fields: seq<seq<byte>>)
    requires |fields| > 1
    ensures Join(fields) == fields[0] + [NUL] + Join(fields[1..])
  {
  }

  lemma JoinPrepend(head: seq<byte>, t: seq<seq<byte>>)
    requires |t| >= 1
    ensures Join([head] + t) == head + [NUL] + Join(t)
  {
    assert ([head] + t)[1..] == t;
  }

  /** The fields of SplitN join back to s. */
  lemma {:induction false} SplitNJoinBack(s: seq<byte>, n: nat)
    requires n >= 1
    ensures Join(SplitN(s, n)) == s
    decreases n
  {
    if n > 1 && FindNul(s).Some? {
      var i := FindNul(s).value;
      SplitNJoinBack(s[i + 1..], n - 1);
      SplitNUnfold(s, n);
      JoinPrepend(s[..i], SplitN(s[i + 1..], n - 1));
      CutAtNul(s, i);
    }
  }

  /**
    Fields that a join followed by a split into at most n fields keeps apart:
    every field but the last is NUL-free, and so is the last one when there
    are fewer than n fields. SeparableIndex states this field by field.
  */
  predicate Separable(fields: seq<seq<byte>>, n: nat)
    decreases |fields|
  {
    if |fields| == 0 then false
    else if |fields| == 1 then n >= 1 && (n > 1 ==> NulFree(fields[0]))
    else n > 1 && NulFree(fields[0]) && Separable(fields[1..], n - 1)
  }

  /** Separable, field by field. */
  lemma {:induction false} SeparableIndex(fields: seq<seq<byte>>, n: nat)
    ensures Separable(fields, n) <==>
            && 1 <= |fields| <= n
            && (forall i :: 0 <= i < |fields| - 1 ==> NulFree(fields[i]))
            && (|fields| < n ==> NulFree(fields[|fields| - 1]))
    decreases |fields|
  {
    if |fields| > 1 && n > 1 {
      var t := fields[1..];
      SeparableIndex(t, n - 1);
      assert forall i :: 0 < i < |fields| ==> fields[i] == t[i - 1];
    }
  }

  lemma SeparablePrepend(head: seq<byte>, t: seq<seq<byte>>, n: nat)
    requires n > 1 && NulFree(head) && Separable(t, n - 1)
    ensures Separable([head] + t, n)
  {
    assert ([head] + t)[1..] == t;
  }

  lemma SeparableSingle(s: seq<byte>, n: nat)
    requires n == 1 || (n > 1 && NulFree(s))
    ensures Separable([s], n) && (n > 1 ==> FindNul(s).None?) && SplitN(s, n) == [s]
  {
    if n > 1 {
      FindNulNone(s);
    }
  }

  /** The fields SplitN produces are separable. */
  lemma {:induction false} SplitNSeparable(s: seq<byte>, n: nat)
    requires n >= 1
    ensures Separable(SplitN(s, n), n)
    decreases n
  {
    if n == 1 || FindNul(s).None? {
      FindNulNone(s);
      SeparableSingle(s, n);
    } else {
      SplitNSeparable(s[FindNul(s).value + 1..], n - 1);
      SplitNSeparableStep(s, n);
    }
  }

  lemma SplitNSeparableStep(s: seq<byte>, n: nat)
    requires n > 1 && FindNul(s).Some?
    requires Separable(SplitN(s[FindNul(s).value + 1..], n - 1), n - 1)
    ensures Separable(SplitN(s, n), n)
  {
    var i := FindNul(s).value;
    FindNulFirst(s);
    SplitNUnfold(s, n);
    SeparablePrepend(s[..i], SplitN(s[i + 1..], n - 1), n);
  }

  /** A sequence is NUL-free exactly when it counts no NUL. */
  lemma {:induction false} NulFreeCount(s: seq<byte>)
    ensures NulFree(s) <==> CountNul(s) == 0
  {
    if s != [] {
      NulFreeCount(s[1..]);
      assert forall k :: 0 < k < |s| ==> s[k] == s[1..][k - 1];
    }
  }

  /** Cutting s at its first NUL leaves one NUL fewer in the part after the cut. */
  lemma {:induction false} SplitCount(s: seq<byte>)
    requires FindNul(s).Some?
    ensures CountNul(s) == 1 + CountNul(s[FindNul(s).value + 1..])
  {
    if s[0] != NUL {
      var i := FindNul(s).value;
      SplitCount(s[1..]);
      assert s[1..][i..] == s[i + 1..];
    }
  }

  /** A sequence without a NUL counts none. */
  lemma {:induction false} NoNulCount(s: seq<byte>)
    requires FindNul(s).None?
    ensures CountNul(s) == 0
  {
    if s != [] {
      NoNulCount(s[1..]);
    }
  }

  /** SplitN gives one field more than s has NULs, but never more than n. */
  lemma {:induction false} SplitNCount(s: seq<byte>, n: nat)
    requires n >= 1
    ensures |SplitN(s, n)| == Min(n, CountNul(s) + 1)
    decreases n
  {
    if n == 1 || FindNul(s).None? {
      SplitNCountWhole(s, n);
    } else {
      SplitNCount(s[FindNul(s).value + 1..], n - 1);
      SplitNCountStep(s, n);
    }
  }

  lemma SplitNCountWhole(s: seq<byte>, n: nat)
    requires n == 1 || (n > 1 && FindNul(s).None?)
    ensures |SplitN(s, n)| == Min(n, CountNul(s) + 1)
  {
    if n > 1 {
      NoNulCount(s);
      assert SplitN(s, n) == [s];
    }
  }

  lemma SplitNCountStep(s: seq<byte>, n: nat)
    requires n > 1 && FindNul(s).Some?
    requires var t := s[FindNul(s).value + 1..];
             |SplitN(t, n - 1)| == Min(n - 1, CountNul(t) + 1)
    ensures |SplitN(s, n)| == Min(n, CountNul(s) + 1)
  {
    SplitNUnfold(s, n);
    SplitCount(s);
  }

  /**
    What splitting into at most n fields gives: exactly n fields when s has at
    least n - 1 NULs, fields that join back to s, and no NUL in any but the last.
  */
  lemma SplitNFields(s: seq<byte>, n: nat)
    requires n >= 1
    ensures var fields := SplitN(s, n);
            && (|fields| == n <==> CountNul(s) >= n - 1)
            && Join(fields) == s
            && (forall i :: 0 <= i < |fields| - 1 ==> NulFree(fields[i]))
  {
    SplitNJoinBack(s, n);
    SplitNSeparable(s, n);
    SeparableIndex(SplitN(s, n), n);
    SplitNCount(s, n);
  }

  /** A NUL-free field followed by a NUL is split off first. */
  lemma SplitNCons(f: seq<byte>, t: seq<byte>, n: nat)
    requires n > 1 && NulFree(f)
    ensures SplitN(f + [NUL] + t, n) == [f] + SplitN(t, n - 1)
  {
    var s := f + [NUL] + t;
    FindNulAfter(f, t);
    assert s[..|f|] == f && s[|f| + 1..] == t;
  }

  /**
    Split/join inverse: separable fields come back from splitting their join.
  */
  lemma {:induction false} SplitNJoin(fields: seq<seq<byte>>, n: nat)
    requires Separable(fields, n)
    ensures SplitN(Join(fields), n) == fields
  {
    if |fields| == 1 {
      SeparableSingle(fields[0], n);
    } else {
      SplitNJoin(fields[1..], n - 1);
      SplitNJoinCons(fields, n);
      assert fields == [fields[0]] + fields[1..];
    }
  }

  lemma SplitNJoinCons(fields: seq<seq<byte>>, n: nat)
    requires |fields| > 1 && n > 1 && NulFree(fields[0])
    ensures SplitN(Join(fields), n) == [fields[0]] + SplitN(Join(fields[1..]), n - 1)
  {
    JoinCons(fields);
    SplitNCons(fields[0], Join(fields[1..]), n);
  }

  /**
    `bytes.Replace(s, []byte{0}, rep, 1)`: the first NUL, if any, replaced by
    rep; every other byte, later NULs included, kept.
  */
  function ReplaceFirstNul(s: seq<byte>, rep: seq<byte>): (r: seq<byte>)
    ensures NulFree(s) ==> r == s
    ensures !NulFree(s) ==> |r| == |s| - 1 + |rep|
  {
    FindNulNone(s);
    match FindNul(s)
    case None => s
    case Some(i) => s[..i] + rep + s[i + 1..]
  }

  /** Replacing the first NUL joins the two fields of a two-way split with rep. */
  lemma ReplaceFirstNulSplit(s: seq<byte>, rep: seq<byte>)
    ensures var parts := SplitN(s, 2);
            ReplaceFirstNul(s, rep) == if |parts| == 2 then parts[0] + rep + parts[1] else s
  {
  }

  /** How many NULs the fields hold between them. */
  function TotalNul(fields: seq<seq<byte>>): nat
  {
    if fields == [] then 0 else CountNul(fields[0]) + TotalNul(fields[1..])
  }

  /** Joining n fields adds exactly n - 1 NULs to those the fields hold. */
  lemma {:induction false} JoinCount(fields: seq<seq<byte>>)
    requires |fields| >= 1
    ensures CountNul(Join(fields)) == TotalNul(fields) + |fields| - 1
  {
    if |fields| > 1 {
      var f, rest := fields[0], fields[1..];
      JoinCons(fields);
      JoinCount(rest);
      assert f + [NUL] + Join(rest) == f + ([NUL] + Join(rest));
      CountNulConcat(f, [NUL] + Join(rest));
      CountNulSeparator(Join(rest));
    } else {
      assert TotalNul(fields) == CountNul(fields[0]) + TotalNul(fields[1..]);
      assert fields[1..] == [];
    }
  }

  /** Fields that are all NUL-free hold no NUL between them. */
  lemma {:induction false} AllNulFreeTotal(fields: seq<seq<byte>>)
    requires forall i :: 0 <= i < |fields| ==> NulFree(fields[i])
    ensures TotalNul(fields) == 0
  {
    if fields != [] {
      NulFreeCount(fields[0]);
      AllNulFreeTotal(fields[1..]);
    }
  }

  /** Joining one more field adds a NUL and the field. */
  lemma {:induction false} JoinAppend(fields: seq<seq<byte>>, x: seq<byte>)
    requires |fields| >= 1
    ensures Join(fields + [x]) == Join(fields) + [NUL] + x
  {
    var all := fields + [x];
    JoinCons(all);
    if |fields| == 1 {
      assert all[1..] == [x];
    } else {
      assert all[1..] == fields[1..] + [x];
      JoinAppend(fields[1..], x);
      JoinCons(fields);
    }
  }

  /** The join of the first k + 1 fields extends the join of the first k. */
  lemma JoinPrefixStep(fields: seq<seq<byte>>, k: nat)
    requires 1 <= k < |fields|
    ensures Join(fields[..k + 1]) == Join(fields[..k]) + [NUL] + fields[k]
  {
    assert fields[..k + 1] == fields[..k] + [fields[k]];
    JoinAppend(fields[..k], fields[k]);
  }

  /** Three fields joined: two bytes longer than the fields, with two NULs more than they hold. */
  lemma JoinThree(a: seq<byte>, b: seq<byte>, c: seq<byte>)
    ensures |Join([a, b, c])| == |a| + |b| + |c| + 2
    ensures CountNul(Join([a, b, c])) == CountNul(a) + CountNul(b) + CountNul(c) + 2
  {
    var f := [a, b, c];
    JoinCons(f);
    JoinCons(f[1..]);
    assert f[1..][1..] == [c];
    assert Join(f) == a + ([NUL] + (b + ([NUL] + c)));
    CountNulConcat(a, [NUL] + (b + ([NUL] + c)));
    CountNulSeparator(b + ([NUL] + c));
    CountNulConcat(b, [NUL] + c);
    CountNulSeparator(c);
  }

  /** Eight fields joined, written out. */
  lemma JoinEight(f: seq<seq<byte>>)
    requires |f| == 8
    ensures Join(f) == f[0] + [NUL] + f[1] + [NUL] + f[2] + [NUL] + f[3] + [NUL] + f[4]
                       + [NUL] + f[5] + [NUL] + f[6] + [NUL] + f[7]
  {
    assert f[..1] == [f[0]];
    var b := f[0];
    assert b == Join(f[..1]);
    JoinPrefixStep(f, 1);
    b := b + [NUL] + f[1];
    JoinPrefixStep(f, 2);
    b := b + [NUL] + f[2];
    JoinPrefixStep(f, 3);
    b := b + [NUL] + f[3];
    JoinPrefixStep(f, 4);
    b := b + [NUL] + f[4];
    JoinPrefixStep(f, 5);
    b := b + [NUL] + f[5];
    JoinPrefixStep(f, 6);
    b := b + [NUL] + f[6];
    JoinPrefixStep(f, 7);
    b := b + [NUL] + f[7];
    assert b == Join(f[..8]);
    assert f[..8] == f;
  }
}
