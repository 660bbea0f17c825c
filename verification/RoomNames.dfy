/** Room names as the balancer compares them: without regard to ASCII case.
    Equality, ordering and hashing are three separate pieces of code; a hash map keyed by
    room names is only sound because the three agree, which is what this module proves. */
module RoomNames {

  datatype Ordering = Less | Equal | Greater

  function LowerChar(c: char): char {
    if 'A' <= c <= 'Z' then c + (32 as char) else c
  }

  function ToAsciiLowercase(s: string): (t: string)
    ensures |t| == |s|
  {
    seq(|s|, i requires 0 <= i < |s| => LowerChar(s[i]))
  }

  /** The derived equality: same length and the same characters up to ASCII case. */
  predicate EqIgnoreAsciiCase(a: string, b: string) {
    |a| == |b| && forall i :: 0 <= i < |a| ==> LowerChar(a[i]) == LowerChar(b[i])
  }

  /** Lexicographic comparison of two strings by scalar value. */
  function CompareStrings(a: string, b: string): Ordering {
    if a == [] && b == [] then Equal
    else if a == [] then Less
    else if b == [] then Greater
    else if a[0] < b[0] then Less
    else if a[0] > b[0] then Greater
    else CompareStrings(a[1..], b[1..])
  }

  function Compare(a: string, b: string): Ordering {
    CompareStrings(ToAsciiLowercase(a), ToAsciiLowercase(b))
  }

  /** What a hasher has absorbed after the name was fed to it, character by character. */
  method Hash(name: string, absorbed: seq<char>) returns (result: seq<char>)
    ensures result == absorbed + ToAsciiLowercase(name)
  {
    result := absorbed;
    for i := 0 to |name|
      invariant result == absorbed + ToAsciiLowercase(name)[..i]
    {
      result := result + [LowerChar(name[i])];
    }
  }

  /** A name reduced to what maps are keyed by. */
  datatype RoomName = RoomName(lower: string)

  function KeyOf(name: string): RoomName {
    RoomName(ToAsciiLowercase(name))
  }

  /** Two names share a key exactly when they are equal up to ASCII case, exactly when the
      ordering calls them equal, and exactly when every hasher absorbs the same characters. */
  lemma {:induction false} EqOrdHashAgree(a: string, b: string, absorbed: seq<char>)
    ensures EqIgnoreAsciiCase(a, b) <==> KeyOf(a) == KeyOf(b)
    ensures Compare(a, b) == Equal <==> EqIgnoreAsciiCase(a, b)
    ensures absorbed + ToAsciiLowercase(a) == absorbed + ToAsciiLowercase(b) <==> EqIgnoreAsciiCase(a, b)
  {
    var x, y := ToAsciiLowercase(a), ToAsciiLowercase(b);
    assert |a| == |b| ==> forall i :: 0 <= i < |a| ==> x[i] == LowerChar(a[i]) && y[i] == LowerChar(b[i]);
    if EqIgnoreAsciiCase(a, b) {
      assert x == y;
    }
    if absorbed + x == absorbed + y {
      assert x == (absorbed + x)[|absorbed|..] == (absorbed + y)[|absorbed|..] == y;
    }
    CompareEqual(x, y);
  }

  lemma {:induction false} CompareEqual(a: string, b: string)
    ensures CompareStrings(a, b) == Equal <==> a == b
  {
    if a != [] && b != [] && a[0] == b[0] {
      CompareEqual(a[1..], b[1..]);
      assert a == [a[0]] + a[1..] && b == [b[0]] + b[1..];
    }
  }

  function Reverse(o: Ordering): Ordering {
    match o case Less => Greater case Equal => Equal case Greater => Less
  }

  lemma {:induction false} CompareStringsReversed(a: string, b: string)
    ensures CompareStrings(b, a) == Reverse(CompareStrings(a, b))
  {
    if a != [] && b != [] && a[0] == b[0] {
      CompareStringsReversed(a[1..], b[1..]);
    }
  }

  lemma {:induction false} CompareStringsTransitive(a: string, b: string, c: string)
    requires CompareStrings(a, b) != Greater && CompareStrings(b, c) != Greater
    ensures CompareStrings(a, c) != Greater
    ensures CompareStrings(a, c) == Equal ==> a == b == c
  {
    if a != [] && b != [] && c != [] && a[0] == b[0] == c[0] {
      CompareStringsTransitive(a[1..], b[1..], c[1..]);
      assert a == [a[0]] + a[1..] && b == [b[0]] + b[1..] && c == [c[0]] + c[1..];
    } else {
      CompareEqual(a, c);
    }
  }

  /** The name ordering is a total order up to ASCII case: antisymmetric, transitive, total. */
  lemma CompareIsTotalOrder(a: string, b: string, c: string)
    ensures Compare(b, a) == Reverse(Compare(a, b))
    ensures Compare(a, b) != Greater && Compare(b, a) != Greater ==> EqIgnoreAsciiCase(a, b)
    ensures Compare(a, b) != Greater && Compare(b, c) != Greater ==> Compare(a, c) != Greater
  {
    var x, y, z := ToAsciiLowercase(a), ToAsciiLowercase(b), ToAsciiLowercase(c);
    CompareStringsReversed(x, y);
    EqOrdHashAgree(a, b, []);
    if Compare(a, b) != Greater && Compare(b, c) != Greater {
      CompareStringsTransitive(x, y, z);
    }
  }

  // ---------------------------------------------------------------- which names are the same

  /** The two are the same letter of the ASCII alphabet, the first a capital. */
  predicate CapitalOf(c: char, d: char) {
    'A' <= c <= 'Z' && d as int == c as int + 32
  }

  /** Two characters are the same exactly if they are equal or one is the capital of the other; and no
      capital is left in a key. */
  lemma SameUpToCaseExactly(c: char, d: char)
    ensures LowerChar(c) == LowerChar(d) <==> c == d || CapitalOf(c, d) || CapitalOf(d, c)
    ensures !('A' <= LowerChar(c) <= 'Z')
    ensures LowerChar(LowerChar(c)) == LowerChar(c)
  {
  }

  /** Two names share a key exactly if they have the same length and the same characters, but for
      capitals. */
  lemma SameNameExactly(a: string, b: string)
    ensures KeyOf(a) == KeyOf(b) <==>
            |a| == |b| &&
            forall i :: 0 <= i < |a| ==> a[i] == b[i] || CapitalOf(a[i], b[i]) || CapitalOf(b[i], a[i])
    ensures KeyOf(KeyOf(a).lower) == KeyOf(a)
  {
    EqOrdHashAgree(a, b, []);
    forall i | 0 <= i < |a| && i < |b|
      ensures LowerChar(a[i]) == LowerChar(b[i]) <==> a[i] == b[i] || CapitalOf(a[i], b[i]) || CapitalOf(b[i], a[i])
    {
      SameUpToCaseExactly(a[i], b[i]);
    }
    var key := ToAsciiLowercase(a);
    assert ToAsciiLowercase(key) == key;
  }

  /** The strings first differ at `k`, where the first one has the smaller character. */
  ghost predicate LessAt(a: string, b: string, k: nat) {
    k < |a| && k < |b| && a[..k] == b[..k] && a[k] < b[k]
  }

  lemma LessAtBehindFirst(a: string, b: string, k: nat)
    requires a != [] && b != [] && a[0] == b[0]
    ensures LessAt(a[1..], b[1..], k) <==> LessAt(a, b, k + 1)
    ensures !LessAt(a, b, 0)
  {
    if k < |a| - 1 && k < |b| - 1 {
      assert a[..k + 1] == [a[0]] + a[1..][..k];
      assert b[..k + 1] == [b[0]] + b[1..][..k];
      if a[..k + 1] == b[..k + 1] {
        assert a[1..][..k] == a[..k + 1][1..] == b[..k + 1][1..] == b[1..][..k];
      }
    }
  }

  lemma FirstAgrees(a: string, b: string, k: nat)
    requires a != [] && b != []
    ensures LessAt(a, b, k) ==> if k == 0 then a[0] < b[0] else a[0] == b[0]
  {
    if LessAt(a, b, k) && k > 0 {
      assert a[..k][0] == b[..k][0];
    }
  }

  lemma PrefixBehindFirst(a: string, b: string)
    requires a != [] && b != [] && a[0] == b[0]
    ensures a[1..] < b[1..] <==> a < b
  {
    assert a == [a[0]] + a[1..] && b == [b[0]] + b[1..];
  }

  /** One string is less than another exactly if it is a proper beginning of it, or has the smaller
      character at the first place where they differ. */
  lemma {:induction false} LessExactly(a: string, b: string)
    ensures CompareStrings(a, b) == Less <==> a < b || exists k: nat :: LessAt(a, b, k)
  {
    if a != [] && b != [] {
      if a[0] < b[0] {
        assert LessAt(a, b, 0);
      } else if a[0] == b[0] {
        LessExactly(a[1..], b[1..]);
        PrefixBehindFirst(a, b);
        if k: nat :| LessAt(a[1..], b[1..], k) {
          LessAtBehindFirst(a, b, k);
        }
        if k: nat :| LessAt(a, b, k) {
          LessAtBehindFirst(a, b, 0);
          LessAtBehindFirst(a, b, k - 1);
        }
      } else {
        forall k: nat
          ensures !LessAt(a, b, k)
        {
          FirstAgrees(a, b, k);
        }
      }
    }
  }
}
