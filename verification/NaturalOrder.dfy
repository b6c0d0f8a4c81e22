/** Worker names in natural order: runs of digits compare as numbers. */
module NaturalOrder {
  import opened Bytes

  datatype Ordering = Less | Equal | Greater {
    function Flip(): Ordering {
      match this case Less => Greater case Equal => Equal case Greater => Less
    }
  }

  function Compare(a: int, b: int): Ordering {
    if a < b then Less else if a > b then Greater else Equal
  }

  // ---------- what the order means ----------

  /** A byte that is no digit, or the number a run of digits spells. */
  datatype Token = Plain(code: byte) | Number(value: nat)

  predicate IsDigit(c: byte) {
    0x30 <= c <= 0x39
  }

  /** Length of the run of digits at the front. */
  function RunLength(s: seq<byte>): (n: nat)
    ensures n <= |s| && (forall i :: 0 <= i < n ==> IsDigit(s[i])) && (n < |s| ==> !IsDigit(s[n]))
  {
    if s == [] || !IsDigit(s[0]) then 0 else 1 + RunLength(s[1..])
  }

  function Pow10(n: nat): (p: nat)
    ensures p > 0
  {
    if n == 0 then 1 else 10 * Pow10(n - 1)
  }

  /** The number a digit string spells. */
  function Value(d: seq<byte>): int {
    if d == [] then 0 else (d[0] - 0x30) * Pow10(|d| - 1) + Value(d[1..])
  }

  predicate AllDigits(d: seq<byte>) {
    forall i :: 0 <= i < |d| ==> IsDigit(d[i])
  }

  function Tokens(s: seq<byte>): seq<Token>
    decreases |s|
  {
    if s == [] then []
    else if IsDigit(s[0]) then
      ValueBounds(s[..RunLength(s)]);
      [Number(Value(s[..RunLength(s)]))] + Tokens(s[RunLength(s)..])
    else [Plain(s[0])] + Tokens(s[1..])
  }

  /** Digits sort among the other bytes where their codes are. */
  function Rank(t: Token): int {
    match t case Plain(c) => c case Number(_) => 0x30
  }

  function TokenCmp(t: Token, u: Token): Ordering {
    if t.Number? && u.Number? then Compare(t.value, u.value) else Compare(Rank(t), Rank(u))
  }

  predicate Proper(t: Token) {
    t.Plain? ==> !IsDigit(t.code)
  }

  function Lex(x: seq<Token>, y: seq<Token>): Ordering
    decreases |x|
  {
    if x == [] then (if y == [] then Equal else Less)
    else if y == [] then Greater
    else if TokenCmp(x[0], y[0]) != Equal then TokenCmp(x[0], y[0])
    else Lex(x[1..], y[1..])
  }

  /** Plain byte order. */
  function ByteCmp(a: seq<byte>, b: seq<byte>): Ordering
    decreases |a|
  {
    if a == [] then (if b == [] then Equal else Less)
    else if b == [] then Greater
    else if a[0] != b[0] then Compare(a[0], b[0])
    else ByteCmp(a[1..], b[1..])
  }

  /** Names by their tokens; names with the same tokens, such as `rig02` and `rig2`, by bytes. */
  function Natural(a: seq<byte>, b: seq<byte>): Ordering {
    if Lex(Tokens(a), Tokens(b)) != Equal then Lex(Tokens(a), Tokens(b)) else ByteCmp(a, b)
  }

  // ---------- numbers ----------

  lemma {:induction false} ValueBounds(d: seq<byte>)
    requires AllDigits(d)
    ensures 0 <= Value(d) < Pow10(|d|)
  {
    if d != [] {
      ValueBounds(d[1..]);
      Step(d[0] - 0x30, 9, Pow10(|d| - 1));
    }
  }

  lemma Step(i: int, j: int, p: nat)
    ensures i <= j ==> i * p <= j * p
    ensures (i + 1) * p == i * p + p
  {
    if i <= j {
      assert (j - i) * p >= 0;
    }
  }

  /** How many zeros a digit string starts with. */
  function LeadingZeros(d: seq<byte>): (n: nat)
    ensures n <= |d| && (forall i :: 0 <= i < n ==> d[i] == 0x30) && (n < |d| ==> d[n] != 0x30)
  {
    if d == [] || d[0] != 0x30 then 0 else 1 + LeadingZeros(d[1..])
  }

  lemma {:induction false} ZerosAddNothing(d: seq<byte>)
    ensures Value(d[LeadingZeros(d)..]) == Value(d)
  {
    if d != [] && d[0] == 0x30 {
      ZerosAddNothing(d[1..]);
      assert d[1..][LeadingZeros(d[1..])..] == d[LeadingZeros(d)..];
    }
  }

  /** Between digit strings of one length byte order is the order of the numbers. */
  lemma {:induction false} SameLengthByBytes(x: seq<byte>, y: seq<byte>)
    requires AllDigits(x) && AllDigits(y) && |x| == |y|
    ensures ByteCmp(x, y) == Compare(Value(x), Value(y))
  {
    if x != [] {
      SameLengthByBytes(x[1..], y[1..]);
      var p := Pow10(|x| - 1);
      ValueBounds(x[1..]);
      ValueBounds(y[1..]);
      var i, j := x[0] - 0x30, y[0] - 0x30;
      Step(i, j, p);
      Step(i + 1, j, p);
      Step(j, i, p);
      Step(j + 1, i, p);
    }
  }

  predicate Stripped(d: seq<byte>) {
    AllDigits(d) && (d != [] ==> d[0] != 0x30)
  }

  /** Without leading zeros the longer number is the bigger one. */
  lemma LongerIsBigger(x: seq<byte>, y: seq<byte>)
    requires Stripped(x) && Stripped(y) && |x| < |y|
    ensures Value(x) < Value(y)
  {
    ValueBounds(x);
    ValueBounds(y[1..]);
    Step(1, y[0] - 0x30, Pow10(|y| - 1));
    Pow10Monotone(|x|, |y| - 1);
  }

  lemma {:induction false} Pow10Monotone(a: nat, b: nat)
    requires a <= b
    ensures Pow10(a) <= Pow10(b)
  {
    if a < b {
      Pow10Monotone(a, b - 1);
    }
  }

  /** Stripped length first, then bytes: the order of the numbers. */
  function RunCmp(dx: seq<byte>, dy: seq<byte>): Ordering {
    var tx, ty := LeadingZeros(dx), LeadingZeros(dy);
    if |dx| - tx != |dy| - ty then Compare(|dx| - tx, |dy| - ty) else ByteCmp(dx[tx..], dy[ty..])
  }

  lemma RunsCompareByValue(dx: seq<byte>, dy: seq<byte>)
    requires AllDigits(dx) && AllDigits(dy)
    ensures RunCmp(dx, dy) == Compare(Value(dx), Value(dy))
  {
    var x, y := dx[LeadingZeros(dx)..], dy[LeadingZeros(dy)..];
    ZerosAddNothing(dx);
    ZerosAddNothing(dy);
    if |x| < |y| {
      LongerIsBigger(x, y);
    } else if |y| < |x| {
      LongerIsBigger(y, x);
    } else {
      SameLengthByBytes(x, y);
    }
  }

  // ---------- the loop ----------

  method NaturalCmp(a: seq<byte>, b: seq<byte>) returns (r: Ordering)
    ensures r == Natural(a, b)
  {
    hide Value, RunLength, RunCmp, ByteCmp, LeadingZeros;
    var x, y := a, b;
    while true
      invariant Lex(Tokens(x), Tokens(y)) == Lex(Tokens(a), Tokens(b))
      decreases |x|
    {
      if x == [] || y == [] {
        return if x != [] then Greater else if y != [] then Less else ByteCmp(a, b);
      }
      if IsDigit(x[0]) && IsDigit(y[0]) {
        var nx, ny := RunLength(x), RunLength(y);
        RunNonEmpty(x);
        RunNonEmpty(y);
        var dx, dy := x[..nx], y[..ny];
        RunsCompareByValue(dx, dy);
        var o := RunCmp(dx, dy);
        if o != Equal {
          return o;
        }
        x, y := x[nx..], y[ny..];
      } else {
        if x[0] != y[0] {
          return Compare(x[0], y[0]);
        }
        x, y := x[1..], y[1..];
      }
    }
  }

  lemma RunNonEmpty(s: seq<byte>)
    requires s != [] && IsDigit(s[0])
    ensures RunLength(s) > 0
  {
  }

  // ---------- a total order ----------

  lemma {:induction false} TokensProper(s: seq<byte>)
    ensures forall i :: 0 <= i < |Tokens(s)| ==> Proper(Tokens(s)[i])
    decreases |s|
  {
    if s != [] {
      TokensProper(if IsDigit(s[0]) then s[RunLength(s)..] else s[1..]);
    }
  }

  predicate AllProper(x: seq<Token>) {
    forall i :: 0 <= i < |x| ==> Proper(x[i])
  }

  lemma {:induction false} LexFlips(x: seq<Token>, y: seq<Token>)
    ensures Lex(y, x) == Lex(x, y).Flip()
    decreases |x|
  {
    if x != [] && y != [] {
      LexFlips(x[1..], y[1..]);
    }
  }

  lemma {:induction false} LexEqualIff(x: seq<Token>, y: seq<Token>)
    requires AllProper(x) && AllProper(y)
    ensures Lex(x, y) == Equal <==> x == y
    decreases |x|
  {
    if x != [] && y != [] {
      LexEqualIff(x[1..], y[1..]);
      assert Proper(x[0]) && Proper(y[0]);
      assert x == [x[0]] + x[1..] && y == [y[0]] + y[1..];
    }
  }

  lemma {:induction false} LexTransitive(x: seq<Token>, y: seq<Token>, z: seq<Token>)
    requires AllProper(x) && AllProper(y) && AllProper(z) && Lex(x, y) == Less && Lex(y, z) == Less
    ensures Lex(x, z) == Less
    decreases |x|
  {
    if x != [] {
      assert Proper(x[0]) && Proper(y[0]) && Proper(z[0]);
      if TokenCmp(x[0], y[0]) == Equal && TokenCmp(y[0], z[0]) == Equal {
        LexTransitive(x[1..], y[1..], z[1..]);
      }
    }
  }

  lemma {:induction false} ByteFlips(a: seq<byte>, b: seq<byte>)
    ensures ByteCmp(b, a) == ByteCmp(a, b).Flip()
    ensures ByteCmp(a, b) == Equal <==> a == b
    decreases |a|
  {
    if a != [] && b != [] {
      ByteFlips(a[1..], b[1..]);
      assert a == [a[0]] + a[1..] && b == [b[0]] + b[1..];
    }
  }

  lemma {:induction false} ByteTransitive(a: seq<byte>, b: seq<byte>, c: seq<byte>)
    requires ByteCmp(a, b) == Less && ByteCmp(b, c) == Less
    ensures ByteCmp(a, c) == Less
    decreases |a|
  {
    if a != [] && a[0] == b[0] == c[0] {
      ByteTransitive(a[1..], b[1..], c[1..]);
    }
  }

  /** Natural order is a total order on names: antisymmetric, equal only for the same name. */
  lemma NaturalFlips(a: seq<byte>, b: seq<byte>)
    ensures Natural(b, a) == Natural(a, b).Flip()
    ensures Natural(a, b) == Equal <==> a == b
  {
    LexFlips(Tokens(a), Tokens(b));
    ByteFlips(a, b);
    TokensProper(a);
    LexEqualIff(Tokens(a), Tokens(a));
  }

  lemma NaturalTransitive(a: seq<byte>, b: seq<byte>, c: seq<byte>)
    requires Natural(a, b) == Less && Natural(b, c) == Less
    ensures Natural(a, c) == Less
  {
    hide Tokens, Lex, ByteCmp;
    TokensProper(a);
    TokensProper(b);
    TokensProper(c);
    LexEqualIff(Tokens(a), Tokens(b));
    LexEqualIff(Tokens(b), Tokens(c));
    if Tokens(a) == Tokens(b) == Tokens(c) {
      ByteTransitive(a, b, c);
    } else if Tokens(a) != Tokens(b) && Tokens(b) != Tokens(c) {
      LexTransitive(Tokens(a), Tokens(b), Tokens(c));
    }
    LexEqualIff(Tokens(a), Tokens(c));
  }

  // ---------- numbered names ----------

  lemma {:induction false} RunStops(s: seq<byte>, d: seq<byte>)
    requires s != [] && !IsDigit(s[|s| - 1])
    ensures RunLength(s + d) == RunLength(s) < |s|
  {
    if IsDigit(s[0]) {
      assert (s + d)[1..] == s[1..] + d;
      RunStops(s[1..], d);
    }
  }

  /** A name that does not end in a digit is cut into tokens on its own, whatever follows. */
  lemma {:induction false} TokensApart(p: seq<byte>, s: seq<byte>)
    requires p == [] || !IsDigit(p[|p| - 1])
    ensures Tokens(p + s) == Tokens(p) + Tokens(s)
    decreases |p|
  {
    if p == [] {
      assert p + s == s;
    } else {
      RunStops(p, s);
      TokensFront(p);
      TokensFront(p + s);
      hide *;
      var n := FrontLen(p);
      SameFront(p, s);
      TokensApart(p[n..], s);
      Regroup(Front(p), Tokens(p[n..]), Tokens(s));
    }
  }

  lemma SameFront(p: seq<byte>, s: seq<byte>)
    requires p != [] && RunLength(p + s) == RunLength(p) < |p|
    ensures FrontLen(p + s) == FrontLen(p) && Front(p + s) == Front(p)
    ensures (p + s)[FrontLen(p)..] == p[FrontLen(p)..] + s
    ensures var rest := p[FrontLen(p)..]; rest == [] || rest[|rest| - 1] == p[|p| - 1]
  {
    hide RunLength, Value;
    var n := FrontLen(p);
    assert (p + s)[n..] == p[n..] + s && (p + s)[..n] == p[..n];
  }

  lemma Regroup(t: Token, x: seq<Token>, y: seq<Token>)
    ensures [t] + (x + y) == ([t] + x) + y
  {
  }

  /** A whole run of digits is one number. */
  lemma TokensOfRun(d: seq<byte>, s: seq<byte>)
    requires d != [] && AllDigits(d) && (s == [] || !IsDigit(s[0]))
    ensures Value(d) >= 0 && Tokens(d + s) == [Number(Value(d))] + Tokens(s)
  {
    ValueBounds(d);
    WholeRun(d, s);
    TokensFront(d + s);
    hide Tokens, RunLength, Value;
    assert (d + s)[..|d|] == d && (d + s)[|d|..] == s;
  }

  lemma {:induction false} WholeRun(d: seq<byte>, s: seq<byte>)
    requires AllDigits(d) && (s == [] || !IsDigit(s[0]))
    ensures RunLength(d + s) == |d|
  {
    if d == [] {
      assert d + s == s;
    } else {
      assert (d + s)[1..] == d[1..] + s;
      WholeRun(d[1..], s);
    }
  }

  /** Length of the first token. */
  function FrontLen(s: seq<byte>): (n: nat)
    requires s != []
    ensures 0 < n <= |s|
  {
    if IsDigit(s[0]) then RunLength(s) else 1
  }

  function Front(s: seq<byte>): Token
    requires s != []
  {
    if IsDigit(s[0]) then
      ValueBounds(s[..FrontLen(s)]);
      Number(Value(s[..FrontLen(s)]))
    else Plain(s[0])
  }

  lemma TokensFront(s: seq<byte>)
    requires s != []
    ensures Tokens(s) == [Front(s)] + Tokens(s[FrontLen(s)..])
  {
    if IsDigit(s[0]) {
      ValueBounds(s[..RunLength(s)]);
    }
    hide Value, RunLength;
  }

  lemma {:induction false} LexAfterSame(x: seq<Token>, y: seq<Token>, z: seq<Token>)
    ensures Lex(x + y, x + z) == Lex(y, z)
    decreases |x|
  {
    if x == [] {
      assert x + y == y && x + z == z;
    } else {
      assert (x + y)[1..] == x[1..] + y && (x + z)[1..] == x[1..] + z;
      LexAfterSame(x[1..], y, z);
    }
  }

  /** Names that have different numbers after the same front sort by those numbers, whatever follows:
      rig2 before rig10, rig2b before rig10a. */
  lemma NumberedNames(name: seq<byte>, d: seq<byte>, e: seq<byte>, s: seq<byte>, t: seq<byte>)
    requires name == [] || !IsDigit(name[|name| - 1])
    requires d != [] && e != [] && AllDigits(d) && AllDigits(e) && Value(d) != Value(e)
    requires (s == [] || !IsDigit(s[0])) && (t == [] || !IsDigit(t[0]))
    ensures Natural(name + (d + s), name + (e + t)) == Compare(Value(d), Value(e))
  {
    TokensApart(name, d + s);
    TokensApart(name, e + t);
    TokensOfRun(d, s);
    TokensOfRun(e, t);
    hide Tokens, Value;
    LexAfterSame(Tokens(name), Tokens(d + s), Tokens(e + t));
  }

  // ---------- other names ----------

  /** Names that differ in a byte after the same front sort by that byte, if not both go on with a
      number: alice before bob. */
  lemma FirstByteDecides(name: seq<byte>, c: byte, d: byte, s: seq<byte>, t: seq<byte>)
    requires name == [] || !IsDigit(name[|name| - 1])
    requires c < d && !(IsDigit(c) && IsDigit(d))
    ensures Natural(name + ([c] + s), name + ([d] + t)) == Less
  {
    TokensApart(name, [c] + s);
    TokensApart(name, [d] + t);
    TokensFront([c] + s);
    TokensFront([d] + t);
    hide Tokens, Value, RunLength;
    LexAfterSame(Tokens(name), Tokens([c] + s), Tokens([d] + t));
  }

  /** Alike up to `n`, where `a` ends or has the smaller byte. */
  predicate DiffersAt(a: seq<byte>, b: seq<byte>, n: int) {
    0 <= n <= |a| && n < |b| && a[..n] == b[..n] && (n == |a| || a[n] < b[n])
  }

  /** A proper prefix, or the smaller byte where they first differ. */
  ghost predicate BytesBefore(a: seq<byte>, b: seq<byte>) {
    exists n :: DiffersAt(a, b, n)
  }

  lemma {:induction false} ByteOrder(a: seq<byte>, b: seq<byte>)
    ensures ByteCmp(a, b) == Less <==> BytesBefore(a, b)
    decreases |a|
  {
    if a == [] || b == [] || a[0] != b[0] {
      assert b != [] ==> a[..0] == b[..0];
      assert DiffersAt(a, b, 0) <==> ByteCmp(a, b) == Less;
    } else {
      ByteOrder(a[1..], b[1..]);
      BytesBeforeTail(a, b);
      hide BytesBefore;
    }
  }

  lemma BytesBeforeTail(a: seq<byte>, b: seq<byte>)
    requires a != [] && b != [] && a[0] == b[0]
    ensures BytesBefore(a, b) <==> BytesBefore(a[1..], b[1..])
  {
    if n :| DiffersAt(a, b, n) {
      DiffersTail(a, b, n - 1);
    }
    if n :| DiffersAt(a[1..], b[1..], n) {
      DiffersTail(a, b, n);
    }
  }

  lemma DiffersTail(a: seq<byte>, b: seq<byte>, n: int)
    requires a != [] && b != [] && a[0] == b[0]
    ensures DiffersAt(a, b, n + 1) <==> DiffersAt(a[1..], b[1..], n)
  {
    if DiffersAt(a, b, n + 1) && n >= 0 {
      assert a[1..][..n] == a[..n + 1][1..] && b[1..][..n] == b[..n + 1][1..];
    }
    if DiffersAt(a[1..], b[1..], n) {
      assert a[..n + 1] == [a[0]] + a[1..][..n] && b[..n + 1] == [b[0]] + b[1..][..n];
    }
  }

  predicate NoDigits(s: seq<byte>) {
    forall i :: 0 <= i < |s| ==> !IsDigit(s[i])
  }

  lemma {:induction false} PlainLex(a: seq<byte>, b: seq<byte>)
    requires NoDigits(a) && NoDigits(b)
    ensures Lex(Tokens(a), Tokens(b)) == ByteCmp(a, b)
    decreases |a|
  {
    if a != [] && b != [] {
      TokensFront(a);
      TokensFront(b);
      PlainLex(a[1..], b[1..]);
    }
  }

  /** Names without digits sort by their bytes. */
  lemma PlainNames(a: seq<byte>, b: seq<byte>)
    requires NoDigits(a) && NoDigits(b)
    ensures Natural(a, b) == Less <==> BytesBefore(a, b)
  {
    PlainLex(a, b);
    ByteOrder(a, b);
  }

  /** And so do names that spell the same numbers in the same places: rig02 before rig2. */
  lemma SameNumbers(a: seq<byte>, b: seq<byte>)
    requires Tokens(a) == Tokens(b)
    ensures Natural(a, b) == Less <==> BytesBefore(a, b)
  {
    ByteOrder(a, b);
    TokensProper(a);
    LexEqualIff(Tokens(a), Tokens(b));
  }
}
