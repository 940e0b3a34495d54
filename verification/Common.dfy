/** Definitions shared by the models: optional values, bytes, and in-order subsequences. */
module Common {

  datatype Option<+T> = None | Some(value: T)

  type byte = b: int | 0 <= b < 256

  function Max(a: int, b: int): int { if a < b then b else a }

  function Min(a: int, b: int): int { if a < b then a else b }

  /** `a` can be obtained from `b` by deleting elements, keeping the order of the others. */
  ghost predicate Subseq<T>(a: seq<T>, b: seq<T>)
    decreases |b|
  {
    || a == []
    || (&& b != []
        && (|| (a[|a|-1] == b[|b|-1] && Subseq(a[..|a|-1], b[..|b|-1]))
            || Subseq(a, b[..|b|-1])))
  }

  lemma {:induction false} SubseqRefl<T>(a: seq<T>)
    ensures Subseq(a, a)
  {
    if a != [] {
      SubseqRefl(a[..|a|-1]);
    }
  }

  lemma {:induction false} SubseqAppend<T>(a: seq<T>, b: seq<T>, c: seq<T>)
    requires Subseq(a, b)
    ensures Subseq(a + c, b + c)
    decreases |c|
  {
    if c == [] {
      assert a + c == a && b + c == b;
    } else {
      var c' := c[..|c|-1];
      SubseqAppend(a, b, c');
      assert (a + c)[..|a + c| - 1] == a + c';
      assert (b + c)[..|b + c| - 1] == b + c';
    }
  }

  /** Deleting a middle part keeps a subsequence a subsequence. */
  lemma {:induction false} SubseqRemove<T>(x: seq<T>, y: seq<T>, z: seq<T>, b: seq<T>)
    requires Subseq(x + y + z, b)
    ensures Subseq(x + z, b)
    decreases |b|
  {
    var a := x + y + z;
    if y == [] {
      assert a == x + z;
    } else if x + z != [] {
      var a', b' := a[..|a|-1], b[..|b|-1];
      if z != [] {
        var z' := z[..|z|-1];
        assert a' == x + y + z';
        assert (x + z)[..|x + z|-1] == x + z';
        if a[|a|-1] == b[|b|-1] && Subseq(a', b') {
          SubseqRemove(x, y, z', b');
        } else {
          SubseqRemove(x, y, z, b');
        }
      } else {
        var y' := y[..|y|-1];
        assert a' == x + y' + z;
        if a[|a|-1] == b[|b|-1] && Subseq(a', b') {
          SubseqRemove(x, y', z, b');
        } else {
          SubseqRemove(x, y, z, b');
        }
      }
    }
  }

  /** A subsequence stays one when the longer sequence grows. */
  lemma {:induction false} SubseqExtend<T>(a: seq<T>, b: seq<T>, c: seq<T>)
    requires Subseq(a, b)
    ensures Subseq(a, b + c)
  {
    SubseqAppend(a, b, c);
    assert a + c + [] == a + c && a + [] == a;
    SubseqRemove(a, c, [], b + c);
  }

  function Flatten<T>(ss: seq<seq<T>>): seq<T> {
    if ss == [] then [] else ss[0] + Flatten(ss[1..])
  }

  lemma {:induction false} FlattenCons<T>(x: seq<T>, rest: seq<seq<T>>)
    ensures Flatten([x] + rest) == x + Flatten(rest)
  {
    assert ([x] + rest)[1..] == rest;
  }

  lemma {:induction false} FlattenAppend<T>(a: seq<seq<T>>, b: seq<seq<T>>)
    ensures Flatten(a + b) == Flatten(a) + Flatten(b)
  {
    if a == [] {
      assert a + b == b;
    } else {
      assert (a + b)[1..] == a[1..] + b;
      FlattenAppend(a[1..], b);
    }
  }

  lemma {:induction false} FlattenSnoc<T>(a: seq<seq<T>>, x: seq<T>)
    ensures Flatten(a + [x]) == Flatten(a) + x
  {
    FlattenAppend(a, [x]);
    assert Flatten([x]) == x + Flatten([]) == x;
  }

  /** The complete pieces of `n` elements each that a sequence starts with. */
  function Pieces<T>(s: seq<T>, n: nat): seq<seq<T>>
    requires n > 0
  {
    if |s| < n then [] else [s[..n]] + Pieces(s[n..], n)
  }

  /** What is left after the complete pieces. */
  function Leftover<T>(s: seq<T>, n: nat): (r: seq<T>)
    requires n > 0
    ensures |r| < n
  {
    if |s| < n then s else Leftover(s[n..], n)
  }

  /** Cutting into pieces loses, adds and moves nothing. */
  lemma {:induction false} PiecesLossless<T>(s: seq<T>, n: nat)
    requires n > 0
    ensures Flatten(Pieces(s, n)) + Leftover(s, n) == s
    ensures forall f <- Pieces(s, n) :: |f| == n
    decreases |s|
  {
    if |s| >= n {
      var rest := s[n..];
      PiecesLossless(rest, n);
      FlattenCons(s[..n], Pieces(rest, n));
      hide Flatten;
      assert s == s[..n] + rest;
    }
  }

  /** Cutting a sequence that arrives in two parts gives the pieces of the whole. */
  lemma {:induction false} PiecesAppend<T>(a: seq<T>, b: seq<T>, n: nat)
    requires n > 0
    ensures Pieces(a + b, n) == Pieces(a, n) + Pieces(Leftover(a, n) + b, n)
    ensures Leftover(a + b, n) == Leftover(Leftover(a, n) + b, n)
    decreases |a|
  {
    if |a| < n {
      assert Pieces(a, n) == [];
    } else {
      var rest := a[n..];
      PiecesAppend(rest, b, n);
      assert (a + b)[..n] == a[..n];
      assert (a + b)[n..] == rest + b;
    }
  }

  /** The characters for which Python's str.isspace holds. */
  predicate IsSpace(c: char) {
    var n := c as int;
    || 9 <= n <= 13 || 28 <= n <= 32 || n == 0x85 || n == 0xA0 || n == 0x1680 || 0x2000 <= n <= 0x200A
    || n == 0x2028 || n == 0x2029 || n == 0x202F || n == 0x205F || n == 0x3000
  }

  function StripLeft(s: string): string {
    if s != [] && IsSpace(s[0]) then StripLeft(s[1..]) else s
  }

  function StripRight(s: string): string {
    if s != [] && IsSpace(s[|s|-1]) then StripRight(s[..|s|-1]) else s
  }

  function Strip(s: string): string { StripRight(StripLeft(s)) }

  /** Stripping takes away white space at both ends, and all of it. */
  lemma {:induction false} StripParts(s: string) returns (l: string, r: string)
    ensures s == l + Strip(s) + r
    ensures (forall c <- l :: IsSpace(c)) && forall c <- r :: IsSpace(c)
    ensures Strip(s) != "" ==> !IsSpace(Strip(s)[0]) && !IsSpace(Strip(s)[|Strip(s)|-1])
  {
    hide IsSpace;
    l := LeftPart(s);
    r := RightPart(StripLeft(s));
    assert l + (Strip(s) + r) == l + Strip(s) + r;
  }

  lemma {:induction false} LeftPart(s: string) returns (l: string)
    ensures s == l + StripLeft(s) && forall c <- l :: IsSpace(c)
    ensures StripLeft(s) != "" ==> !IsSpace(StripLeft(s)[0])
  {
    hide IsSpace;
    if s != [] && IsSpace(s[0]) {
      var rest := LeftPart(s[1..]);
      l := [s[0]] + rest;
      assert s == [s[0]] + s[1..];
    } else {
      l := "";
    }
  }

  lemma {:induction false} RightPart(s: string) returns (r: string)
    ensures s == StripRight(s) + r && forall c <- r :: IsSpace(c)
    ensures StripRight(s) != "" ==> !IsSpace(StripRight(s)[|StripRight(s)|-1]) && StripRight(s)[0] == s[0]
  {
    hide IsSpace;
    if s != [] && IsSpace(s[|s|-1]) {
      var rest := RightPart(s[..|s|-1]);
      r := rest + [s[|s|-1]];
      assert s == s[..|s|-1] + [s[|s|-1]];
    } else {
      r := "";
    }
  }
}
