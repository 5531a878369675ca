/** The names of a TaskRun's pods: one per attempt. */
module PodNames {
  import opened Text

  const LONGEST := 63
  const HEAD := 31     // what is left of the longest name beside an md5 digest in hex

  // The largest number of archived attempts a Go int can count.
  const MAX_ATTEMPTS := 0x8000_0000_0000_0000

  // kmeta.ChildName for suffixes that leave room for a digest; md5 is any function to hex digests.
  function ChildName(md5: string -> string, parent: string, suffix: string): string
    requires |suffix| < HEAD
  {
    if |parent| > LONGEST - |suffix| then parent[..HEAD - |suffix|] + md5(parent) + suffix
    else parent + suffix
  }

  function Suffix(attempt: nat): string {
    if attempt == 0 then "-pod" else "-pod-retry" + Numeral(attempt)
  }

  function PowerOfTen(d: nat): nat {
    if d == 0 then 1 else 10 * PowerOfTen(d - 1)
  }

  lemma {:induction false} NumeralLength(n: nat, d: nat)
    requires d > 0 && n < PowerOfTen(d)
    ensures |Numeral(n)| <= d
  {
    assert PowerOfTen(1) == 10 * PowerOfTen(0);
    if n >= 10 {
      NumeralLength(n / 10, d - 1);
    }
  }

  lemma SuffixIsShort(attempt: nat)
    requires attempt < MAX_ATTEMPTS
    ensures |Suffix(attempt)| < HEAD
  {
    assert PowerOfTen(19) == 10_000_000_000_000_000_000 by {
      assert PowerOfTen(5) == 100_000;
      assert PowerOfTen(10) == 10_000_000_000;
      assert PowerOfTen(15) == 1_000_000_000_000_000;
    }
    NumeralLength(attempt, 19);
  }

  function PodName(md5: string -> string, taskRun: string, attempt: nat): string
    requires attempt < MAX_ATTEMPTS
  {
    SuffixIsShort(attempt);
    ChildName(md5, taskRun, Suffix(attempt))
  }

  // A name tells its suffix, whatever stands before it.
  lemma SuffixTold(x: string, m: nat, y: string, n: nat)
    requires x + Suffix(m) == y + Suffix(n)
    ensures m == n
  {
    LastOfSuffix(x, m);
    LastOfSuffix(y, n);
    if m > 0 && n > 0 {
      NumberTold(x, m, y, n, "-pod-retry");
    }
  }

  lemma LastOfSuffix(x: string, m: nat)
    ensures var s := x + Suffix(m); s != "" && (IsDigit(s[|s| - 1]) <==> m > 0)
  {
    var s, t := x + Suffix(m), Suffix(m);
    assert s[|s| - 1] == t[|t| - 1];
    if m > 0 {
      assert t[|t| - 1] == Numeral(m)[|Numeral(m)| - 1];
    }
  }

  lemma NumberTold(x: string, m: nat, y: string, n: nat, w: string)
    requires w != "" && !IsDigit(w[|w| - 1]) && x + (w + Numeral(m)) == y + (w + Numeral(n))
    ensures m == n
  {
    assert x + (w + Numeral(m)) == (x + w) + Numeral(m) && y + (w + Numeral(n)) == (y + w) + Numeral(n);
    TrailingDigits(x + w, Numeral(m), y + w, Numeral(n));
    NumeralInjective(m, n);
  }

  lemma TrailingDigits(p: string, a: string, q: string, b: string)
    requires p + a == q + b && AllDigits(a) && AllDigits(b)
    requires p != "" && q != "" && !IsDigit(p[|p| - 1]) && !IsDigit(q[|q| - 1])
    ensures a == b
  {
    var s := p + a;
    if |a| < |b| {
      Overlap(p, a, q, b);
    } else if |b| < |a| {
      Overlap(q, b, p, a);
    }
    assert |p| == |q| && a == s[|p|..] && b == s[|q|..];
  }

  // The longer beginning ends inside the longer end.
  lemma Overlap(p: string, a: string, q: string, b: string)
    requires p + a == q + b && |a| < |b|
    ensures |p| > |q| && p[|p| - 1] == b[|p| - 1 - |q|]
  {
    assert (p + a)[|p| - 1] == p[|p| - 1] && (q + b)[|p| - 1] == b[|p| - 1 - |q|];
  }

  /** Different attempts have differently named pods, even where long names are hashed. */
  lemma PodNameInjective(md5: string -> string, taskRun: string, m: nat, n: nat)
    requires m < MAX_ATTEMPTS && n < MAX_ATTEMPTS
    requires PodName(md5, taskRun, m) == PodName(md5, taskRun, n)
    ensures m == n
  {
    SuffixIsShort(m);
    SuffixIsShort(n);
    var x := if |taskRun| > LONGEST - |Suffix(m)| then taskRun[..HEAD - |Suffix(m)|] + md5(taskRun) else taskRun;
    var y := if |taskRun| > LONGEST - |Suffix(n)| then taskRun[..HEAD - |Suffix(n)|] + md5(taskRun) else taskRun;
    SuffixTold(x, m, y, n);
  }

  /** The name of an attempt's pod: the TaskRun's name with "-pod", and with the number of the retry, where that fits
      into 63 characters; otherwise a beginning of it with its digest in between, 63 characters in all. */
  lemma PodNameIs(md5: string -> string, taskRun: string, n: nat)
    requires n < MAX_ATTEMPTS && |md5(taskRun)| == 32
    ensures n == 0 && |taskRun| + 4 <= 63 ==> PodName(md5, taskRun, n) == taskRun + "-pod"
    ensures n > 0 && |taskRun| + 10 + |Numeral(n)| <= 63 ==>
              PodName(md5, taskRun, n) == taskRun + ("-pod-retry" + Numeral(n))
    ensures var rest := if n == 0 then "-pod" else "-pod-retry" + Numeral(n);
      |taskRun| + |rest| > 63 ==>
        && |rest| < 31 && |PodName(md5, taskRun, n)| == 63
        && PodName(md5, taskRun, n) == taskRun[..31 - |rest|] + md5(taskRun) + rest
  {
    SuffixIsShort(n);
  }

  lemma PodNameNonEmpty(md5: string -> string, taskRun: string, n: nat)
    requires n < MAX_ATTEMPTS
    ensures PodName(md5, taskRun, n) != ""
  {
    assert |Suffix(n)| > 0;
  }
}
