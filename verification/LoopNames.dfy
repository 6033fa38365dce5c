/**
 The names that TF_FinishWhileHelper generates below the name of the loop: "<name>/enter0",
 "<name>/merge0", "<name>/cond/<node>" and so on (c/c_api.cc).  No two of them are equal.
 */
module LoopNames {

  import opened Division

  /** StrCat of a non-negative int. */
  function Decimal(n: nat): string {
    if n < 10 then [Digit(n)] else Decimal(n / 10) + [Digit(n % 10)]
  }

  function Digit(d: nat): char
    requires d < 10
  {
    '0' + d as char
  }

  function ParseDecimal(s: string): nat {
    if s == [] then 0
    else
      var k := |s| - 1;
      10 * ParseDecimal(s[..k]) + if '0' <= s[k] <= '9' then (s[k] - '0') as nat else 0
  }

  lemma {:induction false} DecimalParses(n: nat)
    ensures ParseDecimal(Decimal(n)) == n
  {
    var s := Decimal(n);
    if n < 10 {
      assert s[..0] == [];
    } else {
      DecimalParses(n / 10);
      assert s[..|s|-1] == Decimal(n / 10);
    }
  }

  lemma DecimalInjective(i: nat, j: nat)
    ensures Decimal(i) == Decimal(j) ==> i == j
  {
    DecimalParses(i);
    DecimalParses(j);
  }

  function PowerOfTen(k: nat): (p: nat)
    ensures p > 0
  {
    if k == 0 then 1 else 10 * PowerOfTen(k - 1)
  }

  /** Decimal notation: digit `k` from the right counts the powers of ten, and the first one is 0 only for 0. */
  lemma {:induction false} DecimalDigits(n: nat, k: nat)
    requires k < |Decimal(n)|
    ensures Decimal(n)[|Decimal(n)| - 1 - k] == "0123456789"[n / PowerOfTen(k) % 10]
    ensures Decimal(n)[0] == '0' <==> n == 0
    decreases n
  {
    DigitText(n % 10);
    if n >= 10 {
      DecimalDigits(n / 10, if k > 0 then k - 1 else 0);
      if k > 0 {
        assert Decimal(n)[|Decimal(n)| - 1 - k] == Decimal(n / 10)[|Decimal(n / 10)| - 1 - (k - 1)];
        NextPlace(n, k);
      }
    }
  }

  lemma NextPlace(n: nat, k: nat)
    requires k > 0
    ensures n / PowerOfTen(k) == n / 10 / PowerOfTen(k - 1)
  {
    DivideTwice(n, 10, PowerOfTen(k - 1));
  }

  lemma DigitText(d: nat)
    requires d < 10
    ensures Digit(d) == "0123456789"[d]
  {
  }

  datatype Family = EnterF | MergeF | SwitchF | NextF | ExitF | CondF | BodyF

  function Text(f: Family): string {
    match f
    case EnterF => "/enter"
    case MergeF => "/merge"
    case SwitchF => "/switch"
    case NextF => "/next"
    case ExitF => "/exit"
    case CondF => "/cond/"
    case BodyF => "/body/"
  }

  function Name(loop: string, f: Family, rest: string): string {
    loop + Text(f) + rest
  }

  predicate StartsWith(s: string, prefix: string) {
    |prefix| <= |s| && s[..|prefix|] == prefix
  }

  lemma NameChars(loop: string, f: Family, rest: string)
    ensures |Name(loop, f, rest)| >= |loop| + 5
    ensures Name(loop, f, rest)[|loop|+1] == Text(f)[1] && Name(loop, f, rest)[|loop|+2] == Text(f)[2]
    ensures Name(loop, f, rest)[|loop|+|Text(f)|..] == rest
    ensures StartsWith(Name(loop, f, rest), loop + Text(f)) && StartsWith(Name(loop, f, rest), loop + "/")
  {
    var s := Name(loop, f, rest);
    assert s[..|loop + Text(f)|] == loop + Text(f);
    assert s[..|loop| + 1] == loop + "/";
  }

  lemma FamiliesApart(f: Family, g: Family)
    ensures Text(f)[1] == Text(g)[1] && Text(f)[2] == Text(g)[2] ==> f == g
  {
  }

  /** Names of different families, or with different endings, are different. */
  lemma NamesApart(loop: string, f: Family, r: string, g: Family, q: string)
    ensures Name(loop, f, r) == Name(loop, g, q) ==> f == g && r == q
  {
    NameChars(loop, f, r);
    NameChars(loop, g, q);
    FamiliesApart(f, g);
  }

  /** A generated name lies under the prefix of a copied graph only if it belongs to that copy. */
  lemma PrefixApart(loop: string, f: Family, r: string, g: Family)
    ensures StartsWith(Name(loop, f, r), loop + Text(g)) <==> f == g
  {
    NameChars(loop, f, r);
    FamiliesApart(f, g);
    var p := loop + Text(g);
    assert p[|loop|+1] == Text(g)[1] && p[|loop|+2] == Text(g)[2];
  }
}
