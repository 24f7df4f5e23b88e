/** The preview limit of `download_site`: with a positive `limit_per_type`
    each category keeps only its first URLs in sorted order, and the counts
    reported at the end are the sizes of the categories that were kept. */
module Preview {
  import opened Text
  import opened Assets

  /** Python's `<` on strings: code point by code point, a proper prefix
      first. */
  predicate Less(a: string, b: string) {
    if a == [] then b != []
    else if b == [] then false
    else a[0] < b[0] || (a[0] == b[0] && Less(a[1..], b[1..]))
  }

  lemma {:induction false} LessIrreflexive(a: string)
    ensures !Less(a, a)
  {
    if a != [] {
      LessIrreflexive(a[1..]);
    }
  }

  lemma {:induction false} LessTransitive(a: string, b: string, c: string)
    requires Less(a, b) && Less(b, c)
    ensures Less(a, c)
  {
    if a != [] && b != [] && c != [] && a[0] == b[0] && b[0] == c[0] {
      LessTransitive(a[1..], b[1..], c[1..]);
    }
  }

  /** Any two different strings are ordered one way or the other, and only
      one way. */
  lemma {:induction false} LessTotal(a: string, b: string)
    requires a != b
    ensures Less(a, b) != Less(b, a)
  {
    if a != [] && b != [] && a[0] == b[0] {
      assert a == [a[0]] + a[1..] && b == [b[0]] + b[1..];
      LessTotal(a[1..], b[1..]);
    }
  }

  /** `min(urls)`, found by one pass over the set. */
  method Least(urls: set<Url>) returns (m: Url)
    requires urls != {}
    ensures m in urls && forall x :: x in urls && x != m ==> Less(m, x)
  {
    m :| m in urls;
    var rest := urls - {m};
    ghost var seen := {m};
    while rest != {}
      invariant rest + seen == urls && rest !! seen && m in seen
      invariant forall y :: y in seen && y != m ==> Less(m, y)
      decreases |rest|
    {
      var x :| x in rest;
      if Less(x, m) {
        forall y | y in seen && y != x ensures Less(x, y) {
          if y != m {
            LessTransitive(x, m, y);
          }
        }
        m := x;
      } else {
        LessTotal(x, m);
      }
      rest := rest - {x};
      seen := seen + {x};
    }
  }

  /** `kept` is `set(sorted(all)[:n])`: the `n` smallest URLs, or all of them
      when there are fewer. */
  ghost predicate Keeps(all: set<Url>, kept: set<Url>, n: nat) {
    kept <= all && |kept| == Min(n, |all|) &&
    forall x, y :: x in kept && y in all - kept ==> Less(x, y)
  }

  function Min(a: nat, b: nat): nat { if a <= b then a else b }

  /** `set(sorted(urls)[:n])`, by taking the least remaining URL `n` times. */
  method Smallest(urls: set<Url>, n: nat) returns (kept: set<Url>)
    ensures Keeps(urls, kept, n)
  {
    kept := {};
    var rest := urls;
    while |kept| < n && rest != {}
      invariant kept + rest == urls && kept !! rest
      invariant |kept| + |rest| == |urls|
      invariant |kept| <= n
      invariant forall x, y :: x in kept && y in rest ==> Less(x, y)
      decreases |rest|
    {
      var m := Least(rest);
      kept := kept + {m};
      rest := rest - {m};
    }
    assert urls - kept == rest;
  }

  /** The set a category keeps is determined: two results that both keep
      the `n` smallest are the same set. */
  lemma KeepsUnique(all: set<Url>, a: set<Url>, b: set<Url>, n: nat)
    requires Keeps(all, a, n) && Keeps(all, b, n)
    ensures a == b
  {
    assert |a - b| == |b - a| by {
      assert a == (a * b) + (a - b) && (a * b) !! (a - b);
      assert b == (a * b) + (b - a) && (a * b) !! (b - a);
    }
    if a - b != {} {
      var x :| x in a - b;
      var y :| y in b - a;
      assert Less(x, y) && Less(y, x);
      LessTotal(x, y);
    }
    assert b - a == {};
  }

  /** The limiting step of `download_site`: only a positive limit applies. */
  method LimitPerType(assets: AssetSet, limit: Option<int>) returns (limited: AssetSet)
    requires Total(assets)
    ensures Total(limited)
    ensures !(limit.Some? && limit.value > 0) ==> limited == assets
    ensures limit.Some? && limit.value > 0 ==> forall c: Category :: Keeps(assets[c], limited[c], limit.value)
  {
    if !(limit.Some? && limit.value > 0) {
      return assets;
    }
    var n: nat := limit.value;
    limited := map[];
    for i := 0 to |Categories|
      invariant forall j :: 0 <= j < i ==> Categories[j] in limited && Keeps(assets[Categories[j]], limited[Categories[j]], n)
    {
      var kind := Categories[i];
      var kept := Smallest(assets[kind], n);
      limited := limited[kind := kept];
    }
    assert Categories[0] == Img && Categories[1] == Js && Categories[2] == Css;
    assert Categories[3] == Video && Categories[4] == Fonts && Categories[5] == Other;
    TotalBySix(limited);
    forall c: Category ensures Keeps(assets[c], limited[c], n) {
      match c
      case Img => assert c == Categories[0];
      case Js => assert c == Categories[1];
      case Css => assert c == Categories[2];
      case Video => assert c == Categories[3];
      case Fonts => assert c == Categories[4];
      case Other => assert c == Categories[5];
    }
  }

  /** `counts = {k: len(v) for k, v in assets.items()}`. */
  function Counts(a: AssetSet): (r: map<Category, nat>)
    requires Total(a)
    ensures Total(r) && forall c: Category :: r[c] == |a[c]|
  {
    map c: Category | c in a :: |a[c]|
  }

  /** Under a positive limit the counts describe what was kept: at most the
      limit per category, and all of a category that had fewer. */
  lemma LimitedCounts(assets: AssetSet, limited: AssetSet, n: nat)
    requires Total(assets) && Total(limited)
    requires forall c: Category :: Keeps(assets[c], limited[c], n)
    ensures forall c: Category :: Counts(limited)[c] <= n && Counts(limited)[c] <= |assets[c]|
    ensures forall c: Category :: |assets[c]| <= n ==> limited[c] == assets[c]
  {
    forall c: Category | |assets[c]| <= n ensures limited[c] == assets[c] {
      var k := limited[c];
      var all := assets[c];
      assert k <= all && |k| == |all|;
      assert all == k + (all - k) && k !! (all - k);
      assert all - k == {};
    }
  }
}
