/** Unique proxy names: `EnsureUniqueProxyNames` and `appendDedupeSuffix` in `internal/model/node.go`. Repeated
    names are numbered, but a numbered name is not compared with the other names, so uniqueness is conditional. */
module ProxyNames {
  import opened Common


  // ---- Decimal numbers ----

  function Digit(d: nat): char
    requires d < 10
  {
    "0123456789"[d]
  }

  /** `strconv.Itoa`. */
  function Digits(n: nat): (s: string)
    ensures s != "" && forall i | 0 <= i < |s| :: '0' <= s[i] <= '9'
  {
    if n < 10 then [Digit(n)] else Digits(n / 10) + [Digit(n % 10)]
  }

  lemma {:induction false} DigitsInjective(a: nat, b: nat)
    requires Digits(a) == Digits(b)
    ensures a == b
  {
    var s, t := Digits(a), Digits(b);
    assert s[|s| - 1] == Digit(a % 10) && t[|t| - 1] == Digit(b % 10);
    if a < 10 || b < 10 {
      assert |s| == 1 && |t| == 1;
    } else {
      assert s[..|s| - 1] == Digits(a / 10) && t[..|t| - 1] == Digits(b / 10);
      DigitsInjective(a / 10, b / 10);
    }
  }

  // ---- Numbering ----

  /** The default style "#n". */
  function NumberSign(base: string, index: nat): string {
    base + " #" + Digits(index)
  }

  ghost predicate Injective(suffix: (string, nat) -> string) {
    forall a: string, b: string, i: nat, j: nat :: suffix(a, i) == suffix(b, j) ==> a == b && i == j
  }

  /** The number starts after the last number sign. */
  lemma LastSign(base: string, index: nat)
    ensures var s, n := NumberSign(base, index), |NumberSign(base, index)| - |Digits(index)|;
            && n >= 2 && s[n - 1] == '#' && (forall k | n <= k < |s| :: s[k] != '#')
            && s[n..] == Digits(index) && s[..n - 2] == base
  {
  }

  lemma DefaultStyleIsInjective()
    ensures Injective(NumberSign)
  {
    forall a: string, b: string, i: nat, j: nat | NumberSign(a, i) == NumberSign(b, j)
      ensures a == b && i == j
    {
      LastSign(a, i);
      LastSign(b, j);
      assert |Digits(i)| == |Digits(j)|;
      DigitsInjective(i, j);
    }
  }

  function Count(names: seq<string>, name: string): nat {
    if names == [] then 0 else Count(names[..|names| - 1], name) + if names[|names| - 1] == name then 1 else 0
  }

  function Numbered(suffix: (string, nat) -> string, names: seq<string>, i: nat): string
    requires i < |names|
  {
    var count := Count(names[..i + 1], names[i]);
    if count == 1 then names[i] else suffix(names[i], count)
  }

  function Unique(suffix: (string, nat) -> string, names: seq<string>): seq<string> {
    seq(|names|, i requires 0 <= i < |names| => Numbered(suffix, names, i))
  }

  /** `EnsureUniqueProxyNames`, of names that are not blank: blank ones are replaced first. */
  method EnsureUniqueProxyNames(suffix: (string, nat) -> string, names: seq<string>) returns (out: seq<string>)
    ensures out == Unique(suffix, names)
  {
    out := [];
    var counts: map<string, nat> := map[];
    for i := 0 to |names|
      invariant |out| == i && forall j | 0 <= j < i :: out[j] == Numbered(suffix, names, j)
      invariant forall name :: Count(names[..i], name) == if name in counts then counts[name] else 0
    {
      assert names[..i + 1][..i] == names[..i];
      var base := names[i];
      var count := (if base in counts then counts[base] else 0) + 1;
      counts := counts[base := count];
      assert forall name :: Count(names[..i + 1], name) == Count(names[..i], name) + if name == base then 1 else 0;
      if count == 1 {
        out := out + [base];
        continue;
      }
      out := out + [suffix(base, count)];
    }
    assert names[..|names|] == names;
  }

  ghost function Places(names: seq<string>, n: nat, name: string): set<nat>
    requires n <= |names|
  {
    set j: nat | j < n && names[j] == name
  }

  /** The count is the number of places. */
  lemma {:induction false} CountIsPlaces(names: seq<string>, n: nat, name: string)
    requires n <= |names|
    ensures Count(names[..n], name) == |Places(names, n, name)|
  {
    if n > 0 {
      CountIsPlaces(names, n - 1, name);
      assert names[..n][..n - 1] == names[..n - 1];
      assert Places(names, n, name) == Places(names, n - 1, name) + if names[n - 1] == name then {n - 1} else {};
    }
  }

  /** The first of equal names stays, the k-th becomes its k-th numbered form. */
  lemma NumberedByPlace(suffix: (string, nat) -> string, names: seq<string>, i: nat)
    requires i < |names|
    ensures Unique(suffix, names)[i] == var k := |Places(names, i + 1, names[i])|; if k == 1 then names[i] else suffix(names[i], k)
  {
    CountIsPlaces(names, i + 1, names[i]);
  }

  /** Some name is the numbered form that a repeated name will take. */
  ghost predicate Clash(suffix: (string, nat) -> string, names: seq<string>) {
    exists i, j, k: nat :: ClashAt(suffix, names, i, j, k)
  }

  ghost predicate ClashAt(suffix: (string, nat) -> string, names: seq<string>, i: int, j: int, k: nat) {
    0 <= i < |names| && 0 <= j < |names| && 2 <= k <= Count(names, names[j]) && names[i] == suffix(names[j], k)
  }

  lemma {:induction false} CountGrows(names: seq<string>, i: nat, j: nat, name: string)
    requires i <= j <= |names|
    ensures Count(names[..i], name) <= Count(names[..j], name)
    ensures forall m | i <= m < j && names[m] == name :: Count(names[..i], name) < Count(names[..j], name)
    decreases j
  {
    if i < j {
      assert names[..j][..j - 1] == names[..j - 1];
      CountGrows(names, i, j - 1, name);
    }
  }

  /** The place where a name occurs for the k-th time. */
  lemma {:induction false} Occurrence(names: seq<string>, name: string, k: nat) returns (i: nat)
    requires 1 <= k <= Count(names, name)
    ensures i < |names| && names[i] == name && Count(names[..i + 1], name) == k
  {
    var last := |names| - 1;
    if names[last] == name && Count(names, name) == k {
      i := last;
      assert names[..last + 1] == names;
    } else {
      i := Occurrence(names[..last], name, k);
      assert names[..last][..i + 1] == names[..i + 1];
    }
  }

  lemma CountAt(names: seq<string>, i: nat)
    requires i < |names|
    ensures 1 <= Count(names[..i + 1], names[i]) <= Count(names, names[i])
  {
    assert names[..i + 1][..i] == names[..i];
    CountGrows(names, i + 1, |names|, names[i]);
    assert names[..|names|] == names;
  }

  lemma CollisionIsClash(suffix: (string, nat) -> string, names: seq<string>, i: nat, j: nat)
    requires Injective(suffix) && i < j < |names| && Numbered(suffix, names, i) == Numbered(suffix, names, j)
    ensures Clash(suffix, names)
  {
    CountAt(names, i);
    CountAt(names, j);
    var a, b := Count(names[..i + 1], names[i]), Count(names[..j + 1], names[j]);
    if names[i] == names[j] {
      CountGrows(names, i + 1, j + 1, names[i]);
      assert a < b;
    }
    if a == 1 {
      assert b > 1;
      assert ClashAt(suffix, names, i, j, b);
    } else if b == 1 {
      assert ClashAt(suffix, names, j, i, a);
    }
  }

  /** Exactly when the resulting names are pairwise distinct. */
  lemma UniqueIff(suffix: (string, nat) -> string, names: seq<string>)
    requires Injective(suffix)
    ensures Distinct(Unique(suffix, names)) <==> !Clash(suffix, names)
  {
    var out := Unique(suffix, names);
    if Clash(suffix, names) {
      var i, j, k: nat :| ClashAt(suffix, names, i, j, k);
      CountAt(names, i);
      var first := Occurrence(names, names[i], 1);
      var other := Occurrence(names, names[j], k);
      assert out[first] == names[i] && out[other] == suffix(names[j], k);
      assert first != other;
    }
    forall i, j | 0 <= i < j < |out| && out[i] == out[j] ensures Clash(suffix, names) {
      CollisionIsClash(suffix, names, i, j);
    }
  }

  /** The first of three names is repeated and the third is already numbered: the result has a duplicate. */
  lemma NumberedNameClashes()
    ensures Unique(NumberSign, ["A", "A", "A #2"]) == ["A", "A #2", "A #2"]
  {
    var names := ["A", "A", "A #2"];
    assert names[..1] == ["A"] && names[..2] == ["A", "A"] && names[..3] == names;
    assert names[..2][..1] == ["A"] && names[..3][..2] == ["A", "A"] && ["A"][..0] == [];
    assert Count(["A"], "A") == 1;
    assert Count(["A", "A"], "A") == 2;
    assert Count(["A"], "A #2") == 0 && Count(["A", "A"], "A #2") == 0 && Count(names, "A #2") == 1;
    assert Digits(2) == "2";
    assert "A" + " #" + "2" == "A #2";
  }
}
