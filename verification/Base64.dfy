/** Standard base64 with padding (section 4 of RFC 4648), which the user store uses to turn key bytes into map keys. */
module Base64 {
  import opened Common

  const PADDING := '='

  type Sextet = n: nat | n < 64

  /** The alphabet: A-Z, a-z, 0-9, + and /. */
  function Symbol(n: Sextet): char {
    if n < 26 then 'A' + n as char
    else if n < 52 then 'a' + (n - 26) as char
    else if n < 62 then '0' + (n - 52) as char
    else if n == 62 then '+'
    else '/'
  }

  /** The four sextets of three octets; a missing octet counts as zero. */
  function First(a: Octet): Sextet { a / 4 }
  function Second(a: Octet, b: Octet): Sextet { a % 4 * 16 + b / 16 }
  function Third(b: Octet, c: Octet): Sextet { b % 16 * 4 + c / 64 }
  function Fourth(c: Octet): Sextet { c % 64 }

  function At(s: seq<Octet>, i: nat): Octet {
    if i < |s| then s[i] else 0
  }

  /** Three bytes become four symbols; one or two bytes at the end become two or three, and padding. */
  function Block(s: seq<Octet>): (block: string)
    ensures |block| == 4
  {
    [Symbol(First(At(s, 0))),
     Symbol(Second(At(s, 0), At(s, 1))),
     if |s| >= 2 then Symbol(Third(At(s, 1), At(s, 2))) else PADDING,
     if |s| >= 3 then Symbol(Fourth(At(s, 2))) else PADDING]
  }

  function Head(s: seq<Octet>): seq<Octet> {
    if |s| <= 3 then s else s[..3]
  }

  function Tail(s: seq<Octet>): seq<Octet> {
    if |s| <= 3 then [] else s[3..]
  }

  function Encode(s: seq<Octet>): string
    decreases |s|
  {
    if s == [] then "" else Block(s) + Encode(Tail(s))
  }

  /** The symbols in the order of the standard: three runs of the code table, and the last two. */
  lemma SymbolsInOrder(n: Sextet)
    ensures Symbol(0) == 'A' && Symbol(25) == 'Z' && Symbol(26) == 'a' && Symbol(51) == 'z'
    ensures Symbol(52) == '0' && Symbol(61) == '9' && Symbol(62) == '+' && Symbol(63) == '/'
    ensures n < 61 && n != 25 && n != 51 ==> Symbol(n + 1) as int == Symbol(n) as int + 1
  {
  }

  lemma SymbolsDiffer(m: Sextet, n: Sextet)
    ensures Symbol(m) == Symbol(n) ==> m == n
    ensures Symbol(m) != PADDING
  {
  }

  /** The sextets determine the octets. */
  lemma SextetsDiffer(a: Octet, b: Octet, c: Octet, a': Octet, b': Octet, c': Octet)
    requires First(a) == First(a') && Second(a, b) == Second(a', b')
    ensures a == a' && b / 16 == b' / 16
    ensures Third(b, c) == Third(b', c') ==> b == b' && c / 64 == c' / 64
    ensures Third(b, c) == Third(b', c') && Fourth(c) == Fourth(c') ==> c == c'
  {
  }

  /** Equal blocks stand for as many bytes, and for the same octets. */
  lemma BlocksDiffer(s: seq<Octet>, t: seq<Octet>)
    requires s != [] && t != [] && Block(s) == Block(t)
    ensures |Head(s)| == |Head(t)|
    ensures At(s, 0) == At(t, 0) && At(s, 1) == At(t, 1) && At(s, 2) == At(t, 2)
  {
    var x, y := Block(s), Block(t);
    assert x[0] == y[0] && x[1] == y[1] && x[2] == y[2] && x[3] == y[3];
    SymbolsDiffer(First(At(s, 0)), First(At(t, 0)));
    SymbolsDiffer(Second(At(s, 0), At(s, 1)), Second(At(t, 0), At(t, 1)));
    SymbolsDiffer(Third(At(s, 1), At(s, 2)), Third(At(t, 1), At(t, 2)));
    SymbolsDiffer(Third(At(t, 1), At(t, 2)), Third(At(s, 1), At(s, 2)));
    SymbolsDiffer(Fourth(At(s, 2)), Fourth(At(t, 2)));
    SymbolsDiffer(Fourth(At(t, 2)), Fourth(At(s, 2)));
    SextetsDiffer(At(s, 0), At(s, 1), At(s, 2), At(t, 0), At(t, 1), At(t, 2));
  }

  lemma HeadsDiffer(s: seq<Octet>, t: seq<Octet>)
    requires s != [] && t != [] && Block(s) == Block(t)
    ensures Head(s) == Head(t)
  {
    BlocksDiffer(s, t);
    forall i | 0 <= i < |Head(s)| ensures Head(s)[i] == Head(t)[i] {
      assert i == 0 || i == 1 || i == 2;
    }
  }

  lemma TakeAndDrop(a: string, b: string)
    ensures (a + b)[..|a|] == a && (a + b)[|a|..] == b
  {
  }

  lemma EncodeSplits(s: seq<Octet>)
    requires s != []
    ensures |Encode(s)| >= 4 && Encode(s)[..4] == Block(s) && Encode(s)[4..] == Encode(Tail(s))
  {
    TakeAndDrop(Block(s), Encode(Tail(s)));
  }

  /** One round: equal encodings have equal first pieces and equal encodings of the rest. */
  lemma PeelBlock(s: seq<Octet>, t: seq<Octet>)
    requires s != [] && t != [] && Encode(s) == Encode(t)
    ensures Head(s) == Head(t) && Encode(Tail(s)) == Encode(Tail(t))
  {
    EncodeSplits(s);
    EncodeSplits(t);
    HeadsDiffer(s, t);
  }

  /** Distinct byte strings of whatever length have distinct encodings. */
  lemma {:induction false} EncodeInjective(s: seq<Octet>, t: seq<Octet>)
    requires Encode(s) == Encode(t)
    ensures s == t
    decreases |s|
  {
    if s != [] && t != [] {
      PeelBlock(s, t);
      EncodeInjective(Tail(s), Tail(t));
      assert s == Head(s) + Tail(s) && t == Head(t) + Tail(t);
    }
  }

  /** Test vectors of section 10 of RFC 4648. */
  lemma Vectors()
    ensures Encode([]) == ""
    ensures Encode([0x66]) == "Zg==" && Encode([0x66, 0x6f]) == "Zm8=" && Encode([0x66, 0x6f, 0x6f]) == "Zm9v"
    ensures Encode([0x66, 0x6f, 0x6f, 0x62]) == "Zm9vYg=="
  {
    var s: seq<Octet> := [0x66, 0x6f, 0x6f, 0x62];
    assert Tail(s) == [0x62];
  }
}
