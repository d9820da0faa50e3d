/** mergeEnv: user overrides folded onto default environment entries. */
module Env {
  import opened Common
  import opened Text

  /** An entry cut at its first equals sign; none if it is malformed. */
  function Cut(e: string): Option<(string, string)> {
    var i := IndexOf(e, '=');
    if i.None? then None else Some((e[..i.value], e[i.value + 1..]))
  }

  function Entry(k: string, v: string): string {
    k + "=" + v
  }

  lemma CutOfEntry(k: string, v: string)
    requires '=' !in k
    ensures Cut(Entry(k, v)) == Some((k, v))
  {
    var e := Entry(k, v);
    assert e == k + ['='] + v;
    IndexOfFirst(k, '=', v);
    assert e[..|k|] == k && e[|k| + 1..] == v;
  }

  lemma CutKeyIsPlain(e: string)
    ensures Cut(e).Some? ==> '=' !in Cut(e).value.0
  {}

  /** Byte order of strings. */
  predicate StringLe(a: string, b: string) {
    a == "" || (b != "" && (a[0] < b[0] || (a[0] == b[0] && StringLe(a[1..], b[1..]))))
  }

  lemma StringLeTotal(a: string, b: string)
    ensures StringLe(a, b) || StringLe(b, a)
    ensures StringLe(a, b) && StringLe(b, a) ==> a == b
  {
    if a != "" && b != "" && a[0] == b[0] {
      StringLeTotal(a[1..], b[1..]);
      assert a == [a[0]] + a[1..] && b == [b[0]] + b[1..];
    }
  }

  lemma StringLeTransitive(a: string, b: string, c: string)
    requires StringLe(a, b) && StringLe(b, c)
    ensures StringLe(a, c)
  {
    if a != "" && a[0] == b[0] == c[0] {
      StringLeTransitive(a[1..], b[1..], c[1..]);
    }
  }

  /** Ascending order without recursion: one string is a proper beginning of the other, or at the first place
      where they differ it has the smaller character. */
  lemma {:induction false} StringLeMeans(a: string, b: string)
    ensures StringLe(a, b) <==>
            || a == b
            || (|a| < |b| && a == b[..|a|])
            || exists n :: 0 <= n < |a| && n < |b| && a[..n] == b[..n] && a[n] < b[n]
  {
    if a != "" && b != "" {
      assert a == [a[0]] + a[1..] && b == [b[0]] + b[1..];
      if a[0] == b[0] {
        StringLeMeans(a[1..], b[1..]);
        SameStart(a, b);
      } else {
        assert a[..0] == b[..0];
        assert forall n | 0 < n <= |a| && n <= |b| :: a[..n][0] == a[0] && b[..n][0] == b[0];
      }
    }
  }

  /** Places shift by one behind a common first character. */
  lemma SameStart(a: string, b: string)
    requires a != "" && b != "" && a[0] == b[0]
    ensures a[1..] == b[1..] <==> a == b
    ensures |a| <= |b| ==> (a[1..] == b[1..][..|a| - 1] <==> a == b[..|a|])
    ensures (exists n :: 0 <= n < |a| - 1 && n < |b| - 1 && a[1..][..n] == b[1..][..n] && a[1..][n] < b[1..][n]) <==>
            (exists n :: 0 <= n < |a| && n < |b| && a[..n] == b[..n] && a[n] < b[n])
  {
    assert a == [a[0]] + a[1..] && b == [b[0]] + b[1..];
    forall n | 0 <= n < |a| && n < |b| ensures a[1..][..n] == b[1..][..n] <==> a[..n + 1] == b[..n + 1] {
      assert a[..n + 1] == [a[0]] + a[1..][..n] && b[..n + 1] == [b[0]] + b[1..][..n];
    }
    if m :| 0 <= m < |a| - 1 && m < |b| - 1 && a[1..][..m] == b[1..][..m] && a[1..][m] < b[1..][m] {
      assert a[..m + 1] == b[..m + 1] && a[m + 1] < b[m + 1];
    }
    if n :| 0 <= n < |a| && n < |b| && a[..n] == b[..n] && a[n] < b[n] {
      assert a[1..][..n - 1] == b[1..][..n - 1] && a[1..][n - 1] < b[1..][n - 1];
    }
  }

  predicate Sorted(ks: seq<string>) {
    forall i, j | 0 <= i < j < |ks| :: StringLe(ks[i], ks[j])
  }

  predicate NoDuplicates(ks: seq<string>) {
    forall i, j | 0 <= i < j < |ks| :: ks[i] != ks[j]
  }

  function Insert(k: string, ks: seq<string>): (r: seq<string>)
    ensures multiset(r) == multiset(ks) + multiset{k}
  {
    if ks == [] then [k]
    else
      assert ks == [ks[0]] + ks[1..];
      if StringLe(k, ks[0]) then [k] + ks else [ks[0]] + Insert(k, ks[1..])
  }

  lemma {:induction false} InsertKeepsSorted(k: string, ks: seq<string>)
    requires Sorted(ks)
    ensures Sorted(Insert(k, ks))
  {
    if ks == [] {
    } else if StringLe(k, ks[0]) {
      forall i | 0 < i < |ks| ensures StringLe(k, ks[i]) {
        StringLeTransitive(k, ks[0], ks[i]);
      }
    } else {
      var rest := Insert(k, ks[1..]);
      InsertKeepsSorted(k, ks[1..]);
      StringLeTotal(k, ks[0]);
      forall i | 0 <= i < |rest| ensures StringLe(ks[0], rest[i]) {
        assert rest[i] in multiset(rest);
      }
    }
  }

  /** The library's string sort. */
  function Sort(ks: seq<string>): (r: seq<string>)
    ensures Sorted(r) && multiset(r) == multiset(ks)
  {
    if ks == [] then []
    else
      assert ks == [ks[0]] + ks[1..];
      InsertKeepsSorted(ks[0], Sort(ks[1..]));
      Insert(ks[0], Sort(ks[1..]))
  }

  ghost predicate IsLeast(k: string, keys: set<string>) {
    k in keys && forall x | x in keys :: StringLe(k, x)
  }

  lemma LeastExists(keys: set<string>)
    requires keys != {}
    ensures exists k :: IsLeast(k, keys)
    decreases |keys|
  {
    var a :| a in keys;
    var others := keys - {a};
    if others == {} {
      assert keys == others + {a};
      assert forall x | x in keys :: x == a;
      StringLeTotal(a, a);
      assert IsLeast(a, keys);
    } else {
      LeastExists(others);
      var b :| IsLeast(b, others);
      StringLeTotal(a, b);
      StringLeTotal(a, a);
      forall x | x in others && StringLe(a, b) ensures StringLe(a, x) {
        StringLeTransitive(a, b, x);
      }
      assert IsLeast(a, keys) || IsLeast(b, keys);
    }
  }

  /** The keys of a set in ascending order: what any enumeration of them sorts to. */
  ghost function Ascending(keys: set<string>): (ks: seq<string>)
    ensures forall k :: k in ks <==> k in keys
  {
    if keys == {} then []
    else
      LeastExists(keys);
      var k :| IsLeast(k, keys);
      [k] + Ascending(keys - {k})
  }

  lemma AscendingHead(keys: set<string>)
    requires keys != {}
    ensures var ks := Ascending(keys);
            |ks| > 0 && IsLeast(ks[0], keys) && ks[1..] == Ascending(keys - {ks[0]})
  {
    LeastExists(keys);
    var k :| IsLeast(k, keys) && Ascending(keys) == [k] + Ascending(keys - {k});
  }

  lemma HeadIsLeast(ks: seq<string>, keys: set<string>)
    requires Sorted(ks) && ks != [] && forall k :: k in ks <==> k in keys
    ensures IsLeast(ks[0], keys)
  {
    forall x | x in keys ensures StringLe(ks[0], x) {
      var i :| 0 <= i < |ks| && ks[i] == x;
      StringLeTotal(x, x);
    }
    assert ks[0] in ks;
  }

  lemma {:induction false} SortedEnumeration(ks: seq<string>, keys: set<string>)
    requires Sorted(ks) && NoDuplicates(ks) && forall k :: k in ks <==> k in keys
    ensures ks == Ascending(keys)
    decreases |ks|
  {
    if ks == [] {
      assert keys == {};
    } else {
      assert ks[0] in keys;
      HeadIsLeast(ks, keys);
      AscendingHead(keys);
      StringLeTotal(ks[0], Ascending(keys)[0]);
      SortedEnumeration(ks[1..], keys - {ks[0]});
      assert ks == [ks[0]] + ks[1..];
    }
  }

  lemma SortKeepsDistinct(ks: seq<string>)
    requires NoDuplicates(ks)
    ensures NoDuplicates(Sort(ks))
  {
    DistinctCounts(ks);
    forall i, j | 0 <= i < j < |Sort(ks)| ensures Sort(ks)[i] != Sort(ks)[j] {
      if Sort(ks)[i] == Sort(ks)[j] {
        CountOfTwice(Sort(ks), i, j);
      }
    }
  }

  lemma {:induction false} DistinctCounts(ks: seq<string>)
    requires NoDuplicates(ks)
    ensures forall k :: multiset(ks)[k] <= 1
  {
    if ks != [] {
      DistinctCounts(ks[1..]);
      assert ks == [ks[0]] + ks[1..];
      assert ks[0] !in multiset(ks[1..]) by {
        assert ks[0] !in ks[1..];
      }
    }
  }

  lemma CountOfTwice(ks: seq<string>, i: nat, j: nat)
    requires i < j < |ks| && ks[i] == ks[j]
    ensures multiset(ks)[ks[i]] >= 2
  {
    assert ks == ks[..i] + [ks[i]] + ks[i + 1..j] + [ks[j]] + ks[j + 1..];
  }

  /** A default entry as it comes out: its key's override if there is one, and itself otherwise. */
  function Kept(d: string, overrides: map<string, string>): string {
    var cut := Cut(d);
    if cut.Some? && cut.value.0 in overrides then Entry(cut.value.0, overrides[cut.value.0]) else d
  }

  function KeptAll(defaults: seq<string>, overrides: map<string, string>): (out: seq<string>)
    ensures |out| == |defaults|
  {
    seq(|defaults|, i requires 0 <= i < |defaults| => Kept(defaults[i], overrides))
  }

  /** The keys the well-formed entries bind. */
  function KeysOf(env: seq<string>): set<string> {
    set e | e in env && Cut(e).Some? :: Cut(e).value.0
  }

  function Entries(ks: seq<string>, m: map<string, string>): (out: seq<string>)
    requires forall k | k in ks :: k in m
    ensures |out| == |ks|
  {
    seq(|ks|, i requires 0 <= i < |ks| => Entry(ks[i], m[ks[i]]))
  }

  /** The merged environment: defaults in place, then the override keys no default has, in order. */
  ghost function Merged(defaults: seq<string>, overrides: map<string, string>): seq<string> {
    KeptAll(defaults, overrides) + Entries(Ascending(overrides.Keys - KeysOf(defaults)), overrides)
  }

  /** The place of the first equals sign. */
  lemma CutAt(e: string, n: nat)
    requires n < |e| && e[n] == '=' && '=' !in e[..n]
    ensures Cut(e) == Some((e[..n], e[n + 1..]))
  {
    assert e == e[..n] + ['='] + e[n + 1..];
    IndexOfFirst(e[..n], '=', e[n + 1..]);
  }

  /** Each default in its place: with the override behind its first equals sign if its key has one, and word for
      word otherwise. */
  lemma KeptInWords(d: string, overrides: map<string, string>)
    ensures forall n | 0 <= n < |d| && d[n] == '=' && '=' !in d[..n] ::
              Kept(d, overrides) == if d[..n] in overrides then d[..n] + "=" + overrides[d[..n]] else d
    ensures '=' !in d ==> Kept(d, overrides) == d
  {
    forall n | 0 <= n < |d| && d[n] == '=' && '=' !in d[..n]
      ensures Kept(d, overrides) == if d[..n] in overrides then d[..n] + "=" + overrides[d[..n]] else d
    {
      CutAt(d, n);
    }
  }

  /** An entry binds a key iff it starts with it and an equals sign, and the key holds none itself. */
  lemma CutInWords(d: string, k: string)
    ensures Cut(d).Some? && Cut(d).value.0 == k <==> '=' !in k && k + "=" <= d
  {
    CutKeyIsPlain(d);
    if Cut(d).Some? && Cut(d).value.0 == k {
      assert k + "=" == d[..|k| + 1];
    }
    if '=' !in k && k + "=" <= d {
      assert d[|k|] == (k + "=")[|k|] == '=';
      assert d[..|k|] == (k + "=")[..|k|] == k;
      CutAt(d, |k|);
    }
  }

  lemma BoundInWords(defaults: seq<string>, k: string)
    ensures k in KeysOf(defaults) <==> '=' !in k && exists d :: d in defaults && k + "=" <= d
  {
    forall d | d in defaults ensures Cut(d).Some? && Cut(d).value.0 == k <==> '=' !in k && k + "=" <= d {
      CutInWords(d, k);
    }
    assert k in KeysOf(defaults) <==> exists d :: d in defaults && Cut(d).Some? && Cut(d).value.0 == k;
  }

  lemma {:induction false} AscendingIsSorted(keys: set<string>)
    ensures Sorted(Ascending(keys))
    decreases |keys|
  {
    if keys != {} {
      var ks := Ascending(keys);
      AscendingHead(keys);
      AscendingIsSorted(keys - {ks[0]});
      assert forall i | 0 < i < |ks| :: ks[i] == ks[1..][i - 1] && ks[i] in ks;
    }
  }

  /** One string is a proper beginning of the other, or has the smaller character where they first differ. */
  predicate Before(a: string, b: string) {
    || (|a| < |b| && a == b[..|a|])
    || exists n :: 0 <= n < |a| && n < |b| && a[..n] == b[..n] && a[n] < b[n]
  }

  lemma SortedInWords(a: string, b: string)
    ensures StringLe(a, b) && a != b <==> Before(a, b)
  {
    StringLeMeans(a, b);
  }

  /** The added keys ascend, without duplicates. */
  lemma AscendingInWords(keys: set<string>)
    ensures var ks := Ascending(keys);
            forall i, j | 0 <= i < j < |ks| :: Before(ks[i], ks[j])
  {
    var ks := Ascending(keys);
    AscendingIsSorted(keys);
    AscendingHasNoDuplicates(keys);
    forall i, j | 0 <= i < j < |ks| ensures Before(ks[i], ks[j]) {
      SortedInWords(ks[i], ks[j]);
    }
  }

  /** The first part of the merged environment. */
  lemma MergedDefaults(defaults: seq<string>, overrides: map<string, string>, out: seq<string>)
    requires out == Merged(defaults, overrides)
    ensures forall i, n | 0 <= i < |defaults| && 0 <= n < |defaults[i]| && defaults[i][n] == '='
                          && '=' !in defaults[i][..n] ::
              var k := defaults[i][..n]; out[i] == if k in overrides then k + "=" + overrides[k] else defaults[i]
    ensures forall i | 0 <= i < |defaults| && '=' !in defaults[i] :: out[i] == defaults[i]
  {
    forall i | 0 <= i < |defaults| ensures out[i] == Kept(defaults[i], overrides) {}
    forall i, n | 0 <= i < |defaults| && 0 <= n < |defaults[i]| && defaults[i][n] == '=' && '=' !in defaults[i][..n]
      ensures var k := defaults[i][..n];
              out[i] == if k in overrides then k + "=" + overrides[k] else defaults[i]
    {
      KeptInWords(defaults[i], overrides);
    }
    forall i | 0 <= i < |defaults| && '=' !in defaults[i] ensures out[i] == defaults[i] {
      KeptInWords(defaults[i], overrides);
    }
  }

  /** The second part. */
  lemma MergedAdditions(defaults: seq<string>, overrides: map<string, string>, out: seq<string>, added: seq<string>)
    requires out == Merged(defaults, overrides) && added == Ascending(overrides.Keys - KeysOf(defaults))
    ensures |out| == |defaults| + |added|
    ensures forall k :: k in added <==>
              k in overrides && ('=' in k || !exists d :: d in defaults && k + "=" <= d)
    ensures forall i | 0 <= i < |added| :: out[|defaults| + i] == added[i] + "=" + overrides[added[i]]
  {
    forall k ensures k in added <==> k in overrides && ('=' in k || !exists d :: d in defaults && k + "=" <= d) {
      BoundInWords(defaults, k);
    }
    forall i | 0 <= i < |added| ensures out[|defaults| + i] == added[i] + "=" + overrides[added[i]] {
      assert out[|defaults| + i] == Entries(added, overrides)[i];
    }
  }

  /** The merged environment is the defaults, then one entry for each override key that no default binds, the
      keys in ascending order. Whatever order the map's keys come in, it is the same sequence. */
  method MergeEnv(defaults: seq<string>, overrides: map<string, string>)
      returns (out: seq<string>, ghost added: seq<string>)
    ensures out == Merged(defaults, overrides)
    ensures |out| == |defaults| + |added|
    ensures forall i, n | 0 <= i < |defaults| && 0 <= n < |defaults[i]| && defaults[i][n] == '='
                          && '=' !in defaults[i][..n] ::
              var k := defaults[i][..n]; out[i] == if k in overrides then k + "=" + overrides[k] else defaults[i]
    ensures forall i | 0 <= i < |defaults| && '=' !in defaults[i] :: out[i] == defaults[i]
    ensures forall k :: k in added <==>
              k in overrides && ('=' in k || !exists d :: d in defaults && k + "=" <= d)
    ensures forall i | 0 <= i < |added| :: out[|defaults| + i] == added[i] + "=" + overrides[added[i]]
    ensures forall i, j | 0 <= i < j < |added| :: Before(added[i], added[j])
  {
    out := MergeInOrder(defaults, overrides);
    added := Ascending(overrides.Keys - KeysOf(defaults));
    MergedAdditions(defaults, overrides, out, added);
    MergedDefaults(defaults, overrides, out);
    AscendingInWords(overrides.Keys - KeysOf(defaults));
  }

  /** The two loops, with the sort of the second one's keys between them. */
  method MergeInOrder(defaults: seq<string>, overrides: map<string, string>) returns (out: seq<string>)
    ensures out == Merged(defaults, overrides)
  {
    var consumed;
    out, consumed := OverrideDefaults(defaults, overrides);
    var remaining := RemainingKeys(overrides, consumed);
    SortKeepsDistinct(remaining);
    SortKeepsElements(remaining);
    remaining := Sort(remaining);
    SortedEnumeration(remaining, overrides.Keys - consumed);
    assert overrides.Keys - consumed == overrides.Keys - KeysOf(defaults);
    var added := EmitEntries(remaining, overrides);
    out := out + added;
  }

  /** The loop over the sorted keys. */
  method EmitEntries(ks: seq<string>, m: map<string, string>) returns (out: seq<string>)
    requires forall k | k in ks :: k in m
    ensures out == Entries(ks, m)
  {
    out := [];
    for i := 0 to |ks|
      invariant out == Entries(ks, m)[..i]
    {
      out := out + [Entry(ks[i], m[ks[i]])];
    }
  }

  /** The loop over the defaults: replaces the value of every key that is overridden. */
  method OverrideDefaults(defaults: seq<string>, overrides: map<string, string>)
      returns (out: seq<string>, consumed: set<string>)
    ensures out == KeptAll(defaults, overrides)
    ensures consumed == KeysOf(defaults) * overrides.Keys
  {
    out, consumed := [], {};
    for i := 0 to |defaults|
      invariant out == KeptAll(defaults, overrides)[..i]
      invariant consumed == KeysOf(defaults[..i]) * overrides.Keys
    {
      var d := defaults[i];
      ConsumedOneMore(defaults, overrides, i);
      var cut := Cut(d);
      if cut.None? {
        out := out + [d];
        continue;
      }
      var k := cut.value.0;
      if k in overrides {
        out := out + [Entry(k, overrides[k])];
        consumed := consumed + {k};
        continue;
      }
      out := out + [d];
    }
    assert defaults[..|defaults|] == defaults;
  }

  lemma ConsumedOneMore(defaults: seq<string>, overrides: map<string, string>, i: nat)
    requires i < |defaults|
    ensures var cut, all := Cut(defaults[i]), KeptAll(defaults, overrides);
            && all[..i + 1] == all[..i] + [Kept(defaults[i], overrides)]
            && KeysOf(defaults[..i + 1]) * overrides.Keys ==
               KeysOf(defaults[..i]) * overrides.Keys
               + if cut.Some? && cut.value.0 in overrides then {cut.value.0} else {}
  {
    assert defaults[..i + 1] == defaults[..i] + [defaults[i]];
    KeysOneMore(defaults[..i], defaults[i]);
  }

  lemma KeysOneMore(env: seq<string>, e: string)
    ensures KeysOf(env + [e]) == KeysOf(env) + if Cut(e).Some? then {Cut(e).value.0} else {}
  {
    assert forall x :: x in env + [e] <==> x in env || x == e;
  }

  /** The loop over the map, in any order. */
  method RemainingKeys(overrides: map<string, string>, consumed: set<string>) returns (remaining: seq<string>)
    ensures NoDuplicates(remaining)
    ensures forall k :: k in remaining <==> k in overrides.Keys - consumed
  {
    remaining := [];
    var left := overrides.Keys;
    while left != {}
      invariant left <= overrides.Keys && NoDuplicates(remaining)
      invariant forall k :: k in remaining <==> k in overrides.Keys - consumed - left
      decreases |left|
    {
      var k :| k in left;
      assert k !in remaining;
      if k !in consumed {
        remaining := remaining + [k];
      }
      left := left - {k};
    }
  }

  lemma SortKeepsElements(ks: seq<string>)
    ensures forall k :: k in Sort(ks) <==> k in ks
  {
    assert forall k :: k in Sort(ks) <==> k in multiset(Sort(ks));
    assert forall k :: k in ks <==> k in multiset(ks);
  }

  /** What a program sees: the runtime honours the last entry that binds a key. */
  function LastBinding(env: seq<string>, k: string): Option<string> {
    if env == [] then None
    else
      var cut := Cut(env[|env| - 1]);
      if cut.Some? && cut.value.0 == k then Some(cut.value.1) else LastBinding(env[..|env| - 1], k)
  }

  lemma {:induction false} LastBindingConcat(a: seq<string>, b: seq<string>, k: string)
    ensures LastBinding(a + b, k) == if LastBinding(b, k).Some? then LastBinding(b, k) else LastBinding(a, k)
  {
    if b == [] {
      assert a + b == a;
    } else {
      assert (a + b)[..|a + b| - 1] == a + b[..|b| - 1];
      LastBindingConcat(a, b[..|b| - 1], k);
    }
  }

  /** An override key the format cannot carry: it would be cut at its own equals sign. */
  predicate PlainKeys(m: map<string, string>) {
    forall k | k in m :: '=' !in k
  }

  lemma {:induction false} BindingOfEntries(ks: seq<string>, m: map<string, string>, k: string)
    requires (forall x | x in ks :: x in m) && PlainKeys(m)
    ensures LastBinding(Entries(ks, m), k) == if k in ks then Some(m[k]) else None
  {
    if ks != [] {
      var last := ks[|ks| - 1];
      CutOfEntry(last, m[last]);
      assert Entries(ks, m)[..|ks| - 1] == Entries(ks[..|ks| - 1], m);
      BindingOfEntries(ks[..|ks| - 1], m, k);
      assert ks == ks[..|ks| - 1] + [last];
    }
  }

  /** A kept entry binds the key it bound, to the override if there is one. */
  lemma KeptKey(d: string, overrides: map<string, string>)
    ensures var cut := Cut(d);
            Cut(Kept(d, overrides)) ==
            if cut.Some? && cut.value.0 in overrides then Some((cut.value.0, overrides[cut.value.0])) else cut
  {
    var cut := Cut(d);
    CutKeyIsPlain(d);
    if cut.Some? && cut.value.0 in overrides {
      CutOfEntry(cut.value.0, overrides[cut.value.0]);
    }
  }

  lemma LastBindingOneMore(env: seq<string>, e: string, k: string)
    ensures LastBinding(env + [e], k) ==
            if Cut(e).Some? && Cut(e).value.0 == k then Some(Cut(e).value.1) else LastBinding(env, k)
  {
    assert (env + [e])[..|env|] == env;
  }

  /** The last entry that starts with a key and an equals sign decides, and any key with an equals sign in it
      goes unbound. */
  lemma BindingInWords(env: seq<string>, e: string, k: string)
    ensures '=' !in k && k + "=" <= e ==> LastBinding(env + [e], k) == Some(e[|k| + 1..])
    ensures '=' in k || !(k + "=" <= e) ==> LastBinding(env + [e], k) == LastBinding(env, k)
    ensures LastBinding([], k) == None
  {
    LastBindingOneMore(env, e, k);
    CutInWords(e, k);
  }

  lemma {:induction false} BindingOfKept(defaults: seq<string>, overrides: map<string, string>, k: string)
    requires PlainKeys(overrides)
    ensures LastBinding(KeptAll(defaults, overrides), k) ==
            if k !in KeysOf(defaults) then None
            else if k in overrides then Some(overrides[k]) else LastBinding(defaults, k)
  {
    if defaults != [] {
      var front, d := defaults[..|defaults| - 1], defaults[|defaults| - 1];
      assert defaults == front + [d];
      assert KeptAll(defaults, overrides) == KeptAll(front, overrides) + [Kept(d, overrides)];
      KeysOneMore(front, d);
      KeptKey(d, overrides);
      LastBindingOneMore(KeptAll(front, overrides), Kept(d, overrides), k);
      LastBindingOneMore(front, d, k);
      BindingOfKept(front, overrides, k);
    }
  }

  lemma {:induction false} UnboundKey(env: seq<string>, k: string)
    ensures LastBinding(env, k).None? <==> k !in KeysOf(env)
  {
    if env != [] {
      var front, e := env[..|env| - 1], env[|env| - 1];
      assert env == front + [e];
      KeysOneMore(front, e);
      UnboundKey(front, k);
    }
  }

  /** The value a key is meant to have. */
  function Intended(defaults: seq<string>, overrides: map<string, string>, k: string): Option<string> {
    if k in overrides then Some(overrides[k]) else LastBinding(defaults, k)
  }

  lemma PlainMergeOverrides(defaults: seq<string>, overrides: map<string, string>, k: string)
    requires PlainKeys(overrides)
    ensures LastBinding(Merged(defaults, overrides), k) == Intended(defaults, overrides, k)
  {
    var ks := Ascending(overrides.Keys - KeysOf(defaults));
    LastBindingConcat(KeptAll(defaults, overrides), Entries(ks, overrides), k);
    BindingOfEntries(ks, overrides, k);
    BindingOfKept(defaults, overrides, k);
    UnboundKey(defaults, k);
  }

  lemma {:induction false} BoundKeysArePlain(env: seq<string>, k: string)
    requires '=' in k
    ensures LastBinding(env, k).None?
  {
    if env != [] {
      BoundKeysArePlain(env[..|env| - 1], k);
      CutKeyIsPlain(env[|env| - 1]);
    }
  }

  /** Merging means overriding: every key ends up with its override, or else its last default, exactly
      when no override key holds an equals sign. */
  lemma MergeOverridesIffPlain(defaults: seq<string>, overrides: map<string, string>)
    ensures (forall k :: LastBinding(Merged(defaults, overrides), k) == Intended(defaults, overrides, k)) <==>
            PlainKeys(overrides)
  {
    if PlainKeys(overrides) {
      forall k ensures LastBinding(Merged(defaults, overrides), k) == Intended(defaults, overrides, k) {
        PlainMergeOverrides(defaults, overrides, k);
      }
    } else {
      var k :| k in overrides && '=' in k;
      BoundKeysArePlain(Merged(defaults, overrides), k);
    }
  }

  /** Defaults keep their places: malformed ones and those not overridden word for word, the others
      under the same key. */
  lemma DefaultsStayInPlace(defaults: seq<string>, overrides: map<string, string>, i: nat)
    requires i < |defaults|
    ensures |Merged(defaults, overrides)| >= |defaults|
    ensures var cut, out := Cut(defaults[i]), Merged(defaults, overrides)[i];
            if cut.None? || cut.value.0 !in overrides then out == defaults[i]
            else Cut(out) == Some((cut.value.0, overrides[cut.value.0]))
  {
    var cut := Cut(defaults[i]);
    CutKeyIsPlain(defaults[i]);
    if cut.Some? && cut.value.0 in overrides {
      CutOfEntry(cut.value.0, overrides[cut.value.0]);
    }
  }

  /** No key is bound by two entries. */
  ghost predicate KeysOnce(env: seq<string>) {
    forall i, j | 0 <= i < j < |env| && Cut(env[i]).Some? && Cut(env[j]).Some? ::
      Cut(env[i]).value.0 != Cut(env[j]).value.0
  }

  lemma AscendingHasNoDuplicates(keys: set<string>)
    ensures NoDuplicates(Ascending(keys))
    decreases |keys|
  {
    if keys != {} {
      var ks := Ascending(keys);
      AscendingHead(keys);
      AscendingHasNoDuplicates(keys - {ks[0]});
      assert forall i | 0 < i < |ks| :: ks[i] == ks[1..][i - 1];
    }
  }

  /** If the defaults bind no key twice, neither does the result. */
  lemma MergeKeepsKeysOnce(defaults: seq<string>, overrides: map<string, string>)
    requires KeysOnce(defaults) && PlainKeys(overrides)
    ensures KeysOnce(Merged(defaults, overrides))
  {
    var out, n := Merged(defaults, overrides), |defaults|;
    var ks := Ascending(overrides.Keys - KeysOf(defaults));
    AscendingHasNoDuplicates(overrides.Keys - KeysOf(defaults));
    forall i | 0 <= i < |out|
      ensures i < n && Cut(out[i]).Some? ==>
                Cut(defaults[i]).Some? && Cut(out[i]).value.0 == Cut(defaults[i]).value.0
      ensures i >= n ==> Cut(out[i]).Some? && Cut(out[i]).value.0 == ks[i - n]
    {
      if i < n {
        KeptKey(defaults[i], overrides);
      } else {
        assert ks[i - n] in ks;
        CutOfEntry(ks[i - n], overrides[ks[i - n]]);
      }
    }
    forall i, j | 0 <= i < j < |out| && Cut(out[i]).Some? && Cut(out[j]).Some?
      ensures Cut(out[i]).value.0 != Cut(out[j]).value.0
    {
      if i < n && j >= n {
        assert ks[j - n] in ks;
        assert defaults[i] in defaults;
        assert Cut(defaults[i]).value.0 in KeysOf(defaults);
      }
    }
  }
}
