/** The kernel command line: mount directives and the pod that weft-init makes up from them. */
module Cmdline {
  import opened Common
  import opened PodSpec
  import opened Text

  /** Everything behind the first colon; the whole text if there is none. */
  function StripTransportPrefix(v: string): string {
    var i := IndexOf(v, ':');
    if i.Some? then v[i.value + 1..] else v
  }

  /** Exactly one hint is removed, also when the rest holds colons of its own. */
  lemma StripsOneHint(hint: string, rest: string)
    requires ':' !in hint
    ensures StripTransportPrefix(hint + ":" + rest) == rest
    ensures StripTransportPrefix(hint) == hint
  {
    IndexOfFirst(hint, ':', rest);
    assert (hint + ":" + rest)[|hint| + 1..] == rest;
  }

  /** transport:tag:guest[:ro]; None is the error case. */
  function ParseMountDirective(raw: string): (share: Option<Share>)
    ensures share.Some? ==> ':' !in share.value.tag && ':' !in share.value.mountPoint
  {
    var parts := Split(StripTransportPrefix(raw), ':');
    if |parts| < 2 then None else Some(Share(parts[0], parts[1], |parts| >= 3 && parts[2] == "ro"))
  }

  function CubeFSId(idx: nat): string {
    "cubefs-" + Decimal(idx)
  }

  /** masters:volume:guest[:ro] with comma-separated masters; None is the error case. */
  function ParseCubeFSDirective(raw: string, idx: nat): (sm: Option<ShareMount>) {
    var parts := Split(raw, ':');
    if |parts| < 3 then None
    else
      var masters := Split(parts[0], ',');
      if parts[1] == "" || parts[2] == "" || masters[0] == "" then None
      else Some(ShareMount(CubeFSId(idx), masters, parts[1], parts[2], |parts| >= 4 && parts[3] == "ro"))
  }

  // Every directive, by the number of its colons

  lemma TwoFields(a: string, b: string, c: char)
    requires c !in a && c !in b
    ensures Split(a + [c] + b, c) == [a, b]
  {
    SplitInWords(a, c, b);
    SplitInWords(b, c, "");
  }

  lemma ThreeFields(a: string, b: string, d: string, c: char)
    requires c !in a && c !in b && c !in d
    ensures Split(a + [c] + b + [c] + d, c) == [a, b, d]
  {
    TwoFields(b, d, c);
    Regroup(a + [c], b, [c]);
    Regroup(a + [c], b + [c], d);
    SplitInWords(a, c, b + [c] + d);
  }

  lemma Regroup(p: string, u: string, v: string)
    ensures p + u + v == p + (u + v)
  {}

  lemma RegroupFive(p: string, u: string, v: string, w: string, x: string, y: string)
    ensures p + u + v + w + x + y == p + (u + v + w + x + y)
  {
    Regroup(p, u, v);
    Regroup(p, u + v, w);
    Regroup(p, u + v + w, x);
    Regroup(p, u + v + w + x, y);
  }

  lemma FieldsInFront(a: string, b: string, d: string, rest: seq<string>)
    ensures [a] + ([b] + ([d] + rest)) == [a, b, d] + rest
  {}

  lemma FieldInFront(a: string, text: string)
    requires ':' !in a
    ensures Split(a + ":" + text, ':') == [a] + Split(text, ':')
  {
    SplitInWords(a, ':', text);
  }

  /** Three fields and whatever follows. */
  lemma MoreFields(a: string, b: string, d: string, rest: string)
    requires ':' !in a && ':' !in b && ':' !in d
    ensures Split(a + ":" + b + ":" + d + ":" + rest, ':') == [a, b, d] + Split(rest, ':')
  {
    var third := d + ":" + rest;
    var second := b + ":" + third;
    Regroup(b + ":", d, ":");
    Regroup(b + ":", d + ":", rest);
    RegroupFive(a + ":", b, ":", d, ":", rest);
    FieldInFront(a, second);
    FieldInFront(b, third);
    FieldInFront(d, rest);
    FieldsInFront(a, b, d, Split(rest, ':'));
  }

  /** A fourth field, alone or not. */
  lemma FourthField(a: string, b: string, d: string, mode: string, rest: string)
    requires ':' !in a && ':' !in b && ':' !in d && ':' !in mode
    ensures Split(a + ":" + b + ":" + d + ":" + mode, ':') == [a, b, d, mode]
    ensures Split(a + ":" + b + ":" + d + ":" + mode + ":" + rest, ':') == [a, b, d, mode] + Split(rest, ':')
  {
    MoreFields(a, b, d, mode);
    SplitInWords(mode, ':', rest);
    var front := a + ":" + b + ":" + d + ":";
    Regroup(front, mode, ":");
    Regroup(front, mode + ":", rest);
    MoreFields(a, b, d, mode + ":" + rest);
    assert [a, b, d] + ([mode] + Split(rest, ':')) == [a, b, d, mode] + Split(rest, ':');
  }

  /** A mount directive needs its hint, tag and path. */
  lemma MountDirectiveInWords(hint: string, tag: string, path: string)
    requires ':' !in hint && ':' !in tag && ':' !in path
    ensures ParseMountDirective(tag) == None && ParseMountDirective(hint + ":" + tag) == None
    ensures ParseMountDirective(hint + ":" + tag + ":" + path) == Some(Share(tag, path, false))
  {
    StripsOneHint(tag, "");
    SplitInWords(tag, ':', "");
    StripsOneHint(hint, tag);
    TwoFields(tag, path, ':');
    StripsOneHint(hint, tag + ":" + path);
    Regroup(hint + ":", tag, ":");
    Regroup(hint + ":", tag + ":", path);
  }

  /** A further field makes it read-only iff it says ro, and what comes behind that does not matter. */
  lemma MountModeInWords(hint: string, tag: string, path: string, mode: string, rest: string)
    requires ':' !in hint && ':' !in tag && ':' !in path && ':' !in mode
    ensures ParseMountDirective(hint + ":" + tag + ":" + path + ":" + mode) == Some(Share(tag, path, mode == "ro"))
    ensures ParseMountDirective(hint + ":" + tag + ":" + path + ":" + mode + ":" + rest) ==
            Some(Share(tag, path, mode == "ro"))
  {
    var fields := tag + ":" + path + ":" + mode;
    ThreeFields(tag, path, mode, ':');
    MoreFields(tag, path, mode, rest);
    RegroupFive(hint + ":", tag, ":", path, ":", mode);
    StripsOneHint(hint, fields);
    Regroup(hint + ":", fields, ":");
    Regroup(hint + ":", fields + ":", rest);
    StripsOneHint(hint, fields + ":" + rest);
  }

  /** The first of several comma-separated parts. */
  lemma FirstMaster(text: string)
    ensures Split(text, ',')[0] == "" <==> text == "" || text[0] == ','
  {}

  /** A CubeFS directive needs masters, volume and path, none empty and the first master neither. */
  lemma CubeFSDirectiveInWords(masters: string, volume: string, path: string, idx: nat)
    requires ':' !in masters && ':' !in volume && ':' !in path
    ensures ParseCubeFSDirective(masters, idx) == None && ParseCubeFSDirective(masters + ":" + volume, idx) == None
    ensures ParseCubeFSDirective(masters + ":" + volume + ":" + path, idx) ==
            if masters == "" || masters[0] == ',' || volume == "" || path == "" then None
            else Some(ShareMount("cubefs-" + Decimal(idx), Split(masters, ','), volume, path, false))
  {
    SplitInWords(masters, ':', "");
    TwoFields(masters, volume, ':');
    ThreeFields(masters, volume, path, ':');
    FirstMaster(masters);
  }

  /** A further field makes it read-only iff it says ro, and what comes behind that does not matter. */
  lemma CubeFSModeInWords(masters: string, volume: string, path: string, mode: string, rest: string, idx: nat)
    requires ':' !in masters && ':' !in volume && ':' !in path && ':' !in mode
    ensures var text := masters + ":" + volume + ":" + path + ":" + mode;
            var sm := if masters == "" || masters[0] == ',' || volume == "" || path == "" then None
                      else Some(ShareMount("cubefs-" + Decimal(idx), Split(masters, ','), volume, path, mode == "ro"));
            ParseCubeFSDirective(text, idx) == sm && ParseCubeFSDirective(text + ":" + rest, idx) == sm
  {
    FourthField(masters, volume, path, mode, rest);
    FirstMaster(masters);
  }

  // Round trips

  function ModeSuffix(readonly: bool): seq<string> {
    if readonly then ["ro"] else []
  }

  function PrintMount(transport: string, share: Share): string {
    Join([transport, share.tag, share.mountPoint] + ModeSuffix(share.readonly), ':')
  }

  function PrintCubeFS(sm: ShareMount): string {
    Join([Join(sm.masters, ','), sm.volume, sm.mountPoint] + ModeSuffix(sm.readonly), ':')
  }

  /** What is left of a printed directive without its transport. */
  function MountFields(share: Share): (fields: seq<string>)
    ensures |fields| >= 2
  {
    [share.tag, share.mountPoint] + ModeSuffix(share.readonly)
  }

  lemma TransportComesFirst(transport: string, share: Share)
    requires ':' !in transport
    ensures StripTransportPrefix(PrintMount(transport, share)) == Join(MountFields(share), ':')
  {
    var all := [transport, share.tag, share.mountPoint] + ModeSuffix(share.readonly);
    assert all[1..] == MountFields(share);
    assert PrintMount(transport, share) == transport + ":" + Join(MountFields(share), ':');
    StripsOneHint(transport, Join(MountFields(share), ':'));
  }

  /** What a directive can express: the fields hold no colon. */
  lemma MountRoundTrip(transport: string, share: Share)
    requires ':' !in transport
    ensures ParseMountDirective(PrintMount(transport, share)) == Some(share)
            <==> ':' !in share.tag && ':' !in share.mountPoint
  {
    if ':' !in share.tag && ':' !in share.mountPoint {
      TransportComesFirst(transport, share);
      SplitOfJoin(MountFields(share), ':');
    }
  }

  /** No part has a character that the text does not have. */
  lemma {:induction false} PartsHaveNoNewCharacter(s: string, c: char, d: char)
    requires d !in s
    ensures forall i | 0 <= i < |Split(s, c)| :: d !in Split(s, c)[i]
    decreases |s|
  {
    var i := IndexOf(s, c);
    if i.Some? {
      PartsHaveNoNewCharacter(s[i.value + 1..], c, d);
    }
  }

  lemma {:induction false} JoinHasNoNewCharacter(parts: seq<string>, c: char, d: char)
    requires c != d && forall i | 0 <= i < |parts| :: d !in parts[i]
    ensures d !in Join(parts, c)
  {
    if |parts| > 1 {
      JoinHasNoNewCharacter(parts[1..], c, d);
    }
  }

  /** The share mounts a directive can express. */
  predicate Expressible(sm: ShareMount) {
    && |sm.masters| >= 1 && sm.masters[0] != ""
    && (forall i | 0 <= i < |sm.masters| :: ',' !in sm.masters[i] && ':' !in sm.masters[i])
    && sm.volume != "" && ':' !in sm.volume
    && sm.mountPoint != "" && ':' !in sm.mountPoint
  }

  lemma ParsedIsExpressible(raw: string, idx: nat)
    requires ParseCubeFSDirective(raw, idx).Some?
    ensures Expressible(ParseCubeFSDirective(raw, idx).value)
  {
    PartsHaveNoNewCharacter(Split(raw, ':')[0], ',', ':');
  }

  /** In particular a master with a port is never expressible. */
  lemma CubeFSRoundTrip(sm: ShareMount, idx: nat)
    ensures ParseCubeFSDirective(PrintCubeFS(sm), idx) == Some(sm.(id := CubeFSId(idx))) <==> Expressible(sm)
  {
    var raw := PrintCubeFS(sm);
    if Expressible(sm) {
      JoinHasNoNewCharacter(sm.masters, ',', ':');
      SplitOfJoin(sm.masters, ',');
      SplitOfJoin([Join(sm.masters, ','), sm.volume, sm.mountPoint] + ModeSuffix(sm.readonly), ':');
    } else if ParseCubeFSDirective(raw, idx).Some? {
      ParsedIsExpressible(raw, idx);
    }
  }

  // Tokens of the command line

  function Values(tokens: seq<string>, key: string): seq<string> {
    if tokens == [] then []
    else
      var last := tokens[|tokens| - 1];
      Values(tokens[..|tokens| - 1], key) + if key + "=" <= last then [last[|key| + 1..]] else []
  }

  /** A token adds what stands behind the key and its equals sign, and any other token nothing. */
  lemma ValuesInWords(tokens: seq<string>, token: string, key: string, v: string)
    ensures Values([], key) == []
    ensures Values(tokens + [key + "=" + v], key) == Values(tokens, key) + [v]
    ensures !(key + "=" <= token) ==> Values(tokens + [token], key) == Values(tokens, key)
  {
    var own := key + "=" + v;
    assert (tokens + [own])[..|tokens|] == tokens && (tokens + [token])[..|tokens|] == tokens;
    assert own[|key| + 1..] == v;
  }

  method CmdlineValues(tokens: seq<string>, key: string) returns (out: seq<string>)
    ensures out == Values(tokens, key)
  {
    out := [];
    for i := 0 to |tokens|
      invariant out == Values(tokens[..i], key)
    {
      assert tokens[..i + 1][..i] == tokens[..i];
      if key + "=" <= tokens[i] {
        out := out + [tokens[i][|key| + 1..]];
      }
    }
    assert tokens[..|tokens|] == tokens;
  }

  /** The first value, or nothing. */
  method CmdlineValue(tokens: seq<string>, key: string) returns (v: string)
    ensures v == if Values(tokens, key) == [] then "" else Values(tokens, key)[0]
  {
    for i := 0 to |tokens|
      invariant Values(tokens[..i], key) == []
    {
      assert tokens[..i + 1][..i] == tokens[..i];
      if key + "=" <= tokens[i] {
        FirstValueStays(tokens, key, i + 1);
        return tokens[i][|key| + 1..];
      }
    }
    assert tokens[..|tokens|] == tokens;
    v := "";
  }

  lemma {:induction false} FirstValueStays(tokens: seq<string>, key: string, n: nat)
    requires n <= |tokens| && Values(tokens[..n], key) != []
    ensures Values(tokens, key) != [] && Values(tokens, key)[0] == Values(tokens[..n], key)[0]
  {
    if n == |tokens| {
      assert tokens[..n] == tokens;
    } else {
      var init := tokens[..|tokens| - 1];
      assert init[..n] == tokens[..n];
      FirstValueStays(init, key, n);
    }
  }

  // The made-up pod

  /** The shares of the well-formed directives, in order. */
  function Shares(directives: seq<string>): seq<Share> {
    if directives == [] then []
    else
      var share := ParseMountDirective(directives[|directives| - 1]);
      Shares(directives[..|directives| - 1]) + if share.Some? then [share.value] else []
  }

  /** The share mounts of the well-formed directives, each named after its place among all of them. */
  function ShareMounts(directives: seq<string>): seq<ShareMount> {
    if directives == [] then []
    else
      var n := |directives| - 1;
      var sm := ParseCubeFSDirective(directives[n], n);
      ShareMounts(directives[..n]) + if sm.Some? then [sm.value] else []
  }

  /** A directive that does not parse adds nothing, and one that does its share or share mount, at the end. */
  lemma SharesInWords(directives: seq<string>, d: string)
    ensures Shares([]) == [] && ShareMounts([]) == []
    ensures ParseMountDirective(d).None? ==> Shares(directives + [d]) == Shares(directives)
    ensures ParseMountDirective(d).Some? ==>
              Shares(directives + [d]) == Shares(directives) + [ParseMountDirective(d).value]
    ensures var sm := ParseCubeFSDirective(d, |directives|);
            && (sm.None? ==> ShareMounts(directives + [d]) == ShareMounts(directives))
            && (sm.Some? ==> ShareMounts(directives + [d]) == ShareMounts(directives) + [sm.value])
  {
    assert (directives + [d])[..|directives|] == directives;
  }

  function Bind(path: string, readonly: bool): Mount {
    Mount(path, path, "bind", if readonly then ["bind", "ro"] else ["bind"])
  }

  /** Mounts that match shares one for one. */
  predicate BindsOf(mounts: seq<Mount>, shares: seq<Share>) {
    |mounts| == |shares|
    && forall i | 0 <= i < |mounts| :: mounts[i] == Bind(shares[i].mountPoint, shares[i].readonly)
  }

  predicate BindsOfShareMounts(mounts: seq<Mount>, sms: seq<ShareMount>) {
    |mounts| == |sms|
    && forall i | 0 <= i < |mounts| :: mounts[i] == Bind(sms[i].mountPoint, sms[i].readonly)
  }

  predicate DistinctIds(sms: seq<ShareMount>) {
    forall i, j | 0 <= i < j < |sms| :: sms[i].id != sms[j].id
  }

  lemma {:induction false} LaterIdsAreFresh(directives: seq<string>, k: nat)
    requires k >= |directives|
    ensures forall i | 0 <= i < |ShareMounts(directives)| :: ShareMounts(directives)[i].id != CubeFSId(k)
  {
    if directives != [] {
      var n := |directives| - 1;
      LaterIdsAreFresh(directives[..n], k);
      DecimalIsInjective(n, k);
      assert CubeFSId(n)[7..] == Decimal(n) && CubeFSId(k)[7..] == Decimal(k);
    }
  }

  lemma {:induction false} ShareMountIdsAreDistinct(directives: seq<string>)
    ensures DistinctIds(ShareMounts(directives))
  {
    if directives != [] {
      var n := |directives| - 1;
      ShareMountIdsAreDistinct(directives[..n]);
      LaterIdsAreFresh(directives[..n], n);
    }
  }

  method ExtractContainerMounts(directives: seq<string>) returns (out: seq<Mount>)
    ensures BindsOf(out, Shares(directives))
  {
    out := [];
    for i := 0 to |directives|
      invariant BindsOf(out, Shares(directives[..i]))
    {
      assert directives[..i + 1][..i] == directives[..i];
      var share := ParseMountDirective(directives[i]);
      if share.None? {
        continue;
      }
      var opts := ["bind"];
      if share.value.readonly {
        opts := opts + ["ro"];
      }
      out := out + [Mount(share.value.mountPoint, share.value.mountPoint, "bind", opts)];
    }
    assert directives[..|directives|] == directives;
  }

  /** The loop over the weft.mount directives. */
  method CollectShares(root: Share, directives: seq<string>) returns (shares: seq<Share>)
    ensures shares != [] && shares[0] == root && shares[1..] == Shares(directives)
  {
    shares := [root];
    for i := 0 to |directives|
      invariant shares != [] && shares[0] == root && shares[1..] == Shares(directives[..i])
    {
      assert directives[..i + 1][..i] == directives[..i];
      var share := ParseMountDirective(directives[i]);
      if share.None? {
        continue;
      }
      assert (shares + [share.value])[1..] == shares[1..] + [share.value];
      shares := shares + [share.value];
    }
    assert directives[..|directives|] == directives;
  }

  /** The loop over the weft.cubefs directives. */
  method CollectShareMounts(directives: seq<string>) returns (shareMounts: seq<ShareMount>, mounts: seq<Mount>)
    ensures shareMounts == ShareMounts(directives) && BindsOfShareMounts(mounts, shareMounts)
  {
    shareMounts, mounts := [], [];
    for i := 0 to |directives|
      invariant shareMounts == ShareMounts(directives[..i]) && BindsOfShareMounts(mounts, shareMounts)
    {
      assert directives[..i + 1][..i] == directives[..i];
      var sm := ParseCubeFSDirective(directives[i], i);
      if sm.None? {
        continue;
      }
      shareMounts := shareMounts + [sm.value];
      var opts := ["bind"];
      if sm.value.readonly {
        opts := opts + ["ro"];
      }
      mounts := mounts + [Mount(sm.value.mountPoint, sm.value.mountPoint, "bind", opts)];
    }
    assert directives[..|directives|] == directives;
  }

  /** One container on the rootfs share, whose mounts match the other shares and then the share mounts,
      one for one and in order; share mounts have distinct names. */
  predicate Coherent(spec: Spec) {
    && |spec.containers| == 1 && |spec.shares| >= 1
    && var c, s := spec.containers[0], spec.shares[0];
    && c.rootfsTag == s.tag != "" && s.mountPoint == "/run/weft/rootfs/" + c.id && !s.readonly
    && |c.mounts| == |spec.shares| - 1 + |spec.shareMounts|
    && BindsOf(c.mounts[..|spec.shares| - 1], spec.shares[1..])
    && BindsOfShareMounts(c.mounts[|spec.shares| - 1..], spec.shareMounts)
    && DistinctIds(spec.shareMounts)
  }

  method SynthSingleContainerPod(tokens: seq<string>) returns (spec: Option<Spec>)
    ensures var roots := Values(tokens, "weft.rootfs");
            var tag := StripTransportPrefix(if roots == [] then "" else roots[0]);
            if tag == "" then spec == None
            else
              spec.Some? && Coherent(spec.value)
              && spec.value.podId == "single" && spec.value.containers[0].id == "main"
              && spec.value.containers[0].rootfsTag == tag
              && spec.value.shares[1..] == Shares(Values(tokens, "weft.mount"))
              && spec.value.shareMounts == ShareMounts(Values(tokens, "weft.cubefs"))
    ensures spec.Some? ==>
              var c, shares, sms := spec.value.containers[0], spec.value.shares, spec.value.shareMounts;
              && spec.value.containers == [Container("main", "", c.rootfsTag, c.mounts)]
              && |shares| >= 1 && shares[0] == Share(c.rootfsTag, "/run/weft/rootfs/main", false)
              && |c.mounts| == |shares| - 1 + |sms|
  {
    var root := CmdlineValue(tokens, "weft.rootfs");
    var tag := StripTransportPrefix(root);
    if tag == "" {
      return None;
    }
    var directives := CmdlineValues(tokens, "weft.mount");
    var shares := CollectShares(Share(tag, "/run/weft/rootfs/" + "main", false), directives);
    var cubefs := CmdlineValues(tokens, "weft.cubefs");
    var shareMounts, cubefsMounts := CollectShareMounts(cubefs);
    ShareMountIdsAreDistinct(cubefs);
    var mounts := ExtractContainerMounts(directives);
    CoherentPod(shares, shareMounts, mounts, cubefsMounts);
    RootPath();
    spec := Some(Spec("single", [Container("main", "", tag, mounts + cubefsMounts)], shares, shareMounts));
  }

  /** In a coherent pod each share but the first, and then each share mount, is bound at its own path, read-only
      iff it is. */
  lemma CoherentInWords(spec: Spec, i: nat)
    requires Coherent(spec)
    ensures var c, shares, sms := spec.containers[0], spec.shares, spec.shareMounts;
            && |c.mounts| == |shares| - 1 + |sms|
            && (1 <= i < |shares| ==>
                  var s := shares[i];
                  c.mounts[i - 1] ==
                  Mount(s.mountPoint, s.mountPoint, "bind", if s.readonly then ["bind", "ro"] else ["bind"]))
            && (i < |sms| ==>
                  var s := sms[i];
                  c.mounts[|shares| - 1 + i] ==
                  Mount(s.mountPoint, s.mountPoint, "bind", if s.readonly then ["bind", "ro"] else ["bind"]))
    ensures forall j | i < j < |spec.shareMounts| :: spec.shareMounts[i].id != spec.shareMounts[j].id
  {
    var c, shares, sms := spec.containers[0], spec.shares, spec.shareMounts;
    var front, back := c.mounts[..|shares| - 1], c.mounts[|shares| - 1..];
    if 1 <= i < |shares| {
      assert front[i - 1] == Bind(shares[1..][i - 1].mountPoint, shares[1..][i - 1].readonly);
    }
    if i < |sms| {
      assert back[i] == Bind(sms[i].mountPoint, sms[i].readonly);
    }
  }

  lemma RootPath()
    ensures "/run/weft/rootfs/" + "main" == "/run/weft/rootfs/main"
  {}

  lemma CoherentPod(shares: seq<Share>, shareMounts: seq<ShareMount>, mounts: seq<Mount>, more: seq<Mount>)
    requires shares != [] && shares[0].tag != "" && !shares[0].readonly
    requires shares[0].mountPoint == "/run/weft/rootfs/" + "main"
    requires BindsOf(mounts, shares[1..]) && BindsOfShareMounts(more, shareMounts) && DistinctIds(shareMounts)
    ensures Coherent(Spec("single", [Container("main", "", shares[0].tag, mounts + more)], shares, shareMounts))
  {
    assert (mounts + more)[..|mounts|] == mounts && (mounts + more)[|mounts|..] == more;
  }
}
