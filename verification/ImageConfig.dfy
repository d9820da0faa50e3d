/** EnrichFromImage: the image's process settings copied into a container's empty fields, and parseUser,
    which reads the user field back. */
module ImageConfig {
  import opened Common
  import opened Text
  import opened Env

  const MAX_UINT32: nat := 0xFFFF_FFFF

  /** The process section of the image's config file. */
  datatype ImageProcess = ImageProcess(args: seq<string>, env: seq<string>, cwd: string, uid: Uint32, gid: Uint32)

  /** The fields of a container that the image may fill. */
  datatype Fields = Fields(command: seq<string>, env: map<string, string>, workdir: string, user: string)

  datatype EnrichError = NoImageConfig | EmptyArgs

  /** The environment list as a map: entries without an equals sign are dropped, later entries win. */
  function SplitEnv(env: seq<string>): (m: map<string, string>)
    ensures PlainKeys(m)
  {
    if env == [] then map[]
    else
      var cut := Cut(env[|env| - 1]);
      CutKeyIsPlain(env[|env| - 1]);
      var m := SplitEnv(env[..|env| - 1]);
      if cut.None? then m else m[cut.value.0 := cut.value.1]
  }

  /** The user field for a uid and gid: left empty for root. */
  function UserField(uid: Uint32, gid: Uint32): string {
    if uid == 0 && gid == 0 then "" else Decimal(uid) + ":" + Decimal(gid)
  }

  function Enriched(c: Fields, image: ImageProcess): Fields {
    Fields(image.args,
           if c.env == map[] && image.env != [] then SplitEnv(image.env) else c.env,
           if c.workdir == "" then image.cwd else c.workdir,
           if c.user == "" then UserField(image.uid, image.gid) else c.user)
  }

  lemma EnrichedEnv(c: Fields, image: Option<ImageProcess>)
    ensures image.Some? ==>
              var m := Enriched(c, image.value).env;
              && (|c.env| > 0 ==> m == c.env)
              && (|c.env| == 0 ==> forall k :: LastBinding(image.value.env, k) == if k in m then Some(m[k]) else None)
  {
    if image.Some? && |c.env| == 0 {
      var env := image.value.env;
      assert c.env == map[];
      assert env == [] ==> SplitEnv(env) == map[];
      forall k ensures LastBinding(env, k) == if k in SplitEnv(env) then Some(SplitEnv(env)[k]) else None {
        SplitEnvBindings(env, k);
      }
    }
  }

  class Container {
    var command: seq<string>
    var env: map<string, string>
    var workdir: string
    var user: string

    constructor (f: Fields)
      ensures View() == f
    {
      command, env, workdir, user := f.command, f.env, f.workdir, f.user;
    }

    ghost function View(): Fields
      reads this
    {
      Fields(command, env, workdir, user)
    }
  }

  /** Fields already set are kept; a container with a command is not touched, and neither is one whose
      image cannot be read. */
  method EnrichFromImage(c: Container, image: Option<ImageProcess>) returns (err: Option<EnrichError>)
    modifies c
    ensures err == if old(c.command) != [] then None
                   else if image.None? then Some(NoImageConfig)
                   else if image.value.args == [] then Some(EmptyArgs) else None
    ensures c.View() ==
            if old(c.command) == [] && err.None? then Enriched(old(c.View()), image.value) else old(c.View())
    ensures |old(c.command)| > 0 || image.None? || |image.value.args| == 0 ==> c.View() == old(c.View())
    ensures |old(c.command)| == 0 && image.Some? && |image.value.args| > 0 ==>
              var p := image.value;
              && c.command == p.args
              && c.workdir == (if old(c.workdir) != "" then old(c.workdir) else p.cwd)
              && c.user == (if old(c.user) != "" then old(c.user)
                            else if p.uid == 0 && p.gid == 0 then "" else Decimal(p.uid) + ":" + Decimal(p.gid))
              && (|old(c.env)| > 0 ==> c.env == old(c.env))
              && (|old(c.env)| == 0 ==>
                    forall k :: LastBinding(p.env, k) == if k in c.env then Some(c.env[k]) else None)
  {
    EnrichedEnv(c.View(), image);
    if |c.command| > 0 {
      return None;
    }
    if image.None? {
      return Some(NoImageConfig);
    }
    var p := image.value;
    if |p.args| == 0 {
      return Some(EmptyArgs);
    }
    c.command := p.args;
    if |c.env| == 0 && |p.env| > 0 {
      FillEnv(c, p.env);
    }
    if c.workdir == "" {
      c.workdir := p.cwd;
    }
    if c.user == "" && (p.uid != 0 || p.gid != 0) {
      c.user := Decimal(p.uid) + ":" + Decimal(p.gid);
    }
    return None;
  }

  /** The nested loops: for each entry, scan to the first equals sign. */
  method FillEnv(c: Container, env: seq<string>)
    modifies c`env
    ensures c.env == SplitEnv(env)
  {
    c.env := map[];
    for n := 0 to |env|
      invariant c.env == SplitEnv(env[..n])
    {
      var e := env[n];
      assert env[..n + 1][..n] == env[..n];
      ghost var before := c.env;
      var i := 0;
      while i < |e| && e[i] != '='
        invariant i <= |e| && '=' !in e[..i]
      {
        i := i + 1;
      }
      ScanFindsCut(e, i);
      if i < |e| {
        c.env := c.env[e[..i] := e[i + 1..]];
      }
    }
    assert env[..|env|] == env;
  }

  lemma ScanFindsCut(e: string, i: nat)
    requires i <= |e| && '=' !in e[..i] && (i < |e| ==> e[i] == '=')
    ensures Cut(e) == if i < |e| then Some((e[..i], e[i + 1..])) else None
  {
    if i < |e| {
      assert e == e[..i] + ['='] + e[i + 1..];
      IndexOfFirst(e[..i], '=', e[i + 1..]);
    } else {
      assert e[..i] == e;
    }
  }

  lemma {:induction false} SplitEnvBindings(env: seq<string>, k: string)
    ensures LastBinding(env, k) == if k in SplitEnv(env) then Some(SplitEnv(env)[k]) else None
  {
    if env != [] {
      SplitEnvBindings(env[..|env| - 1], k);
    }
  }

  /** The image's environment reaches the process: with no environment of its own, a container sees
      each key at its last image value, else at its last default. */
  lemma ImageEnvSurvives(c: Fields, image: ImageProcess, defaults: seq<string>, k: string)
    requires c.env == map[]
    ensures LastBinding(Merged(defaults, Enriched(c, image).env), k) ==
            if LastBinding(image.env, k).Some? then LastBinding(image.env, k) else LastBinding(defaults, k)
  {
    SplitEnvBindings(image.env, k);
    PlainMergeOverrides(defaults, SplitEnv(image.env), k);
  }

  /** uid and gid of a user string; a missing gid repeats the uid, and what does not parse is dropped
      with its error. */
  function ParseUser(s: string): (Uint32, Uint32) {
    var i := IndexOf(s, ':');
    if s == "" then (0, 0)
    else if i.Some? then (ParseUint(s[..i.value], MAX_UINT32), ParseUint(s[i.value + 1..], MAX_UINT32))
    else (ParseUint(s, MAX_UINT32), ParseUint(s, MAX_UINT32))
  }

  /** The image's uid and gid come back from the user field it left, root included. */
  lemma UserRoundTrip(c: Fields, image: ImageProcess)
    requires c.user == ""
    ensures ParseUser(Enriched(c, image).user) == (image.uid, image.gid)
  {
    if image.uid != 0 || image.gid != 0 {
      var u, g := Decimal(image.uid), Decimal(image.gid);
      assert Enriched(c, image).user == u + [':'] + g;
      IndexOfFirst(u, ':', g);
      assert (u + [':'] + g)[..|u|] == u && (u + [':'] + g)[|u| + 1..] == g;
      ParseOfDecimal(image.uid, MAX_UINT32);
      ParseOfDecimal(image.gid, MAX_UINT32);
    }
  }

  /** A lone number stands for both ids, whatever the number, saturating at 32 bits. */
  lemma LoneUser(n: nat)
    ensures var id := if n <= 0xFFFF_FFFF then n else 0xFFFF_FFFF;
            ParseUser(Decimal(n)) == (id, id)
  {
    assert ':' !in Decimal(n);
    ParseOfDecimal(n, MAX_UINT32);
  }

  /** Two numbers with a colon between them are the two ids, each saturating at 32 bits; no text is root. */
  lemma UserInWords(uid: nat, gid: nat)
    ensures ParseUser("") == (0, 0)
    ensures ParseUser(Decimal(uid) + ":" + Decimal(gid)) ==
            (if uid <= 0xFFFF_FFFF then uid else 0xFFFF_FFFF, if gid <= 0xFFFF_FFFF then gid else 0xFFFF_FFFF)
  {
    var u, g := Decimal(uid), Decimal(gid);
    assert u + ":" + g == u + [':'] + g;
    IndexOfFirst(u, ':', g);
    assert (u + [':'] + g)[..|u|] == u && (u + [':'] + g)[|u| + 1..] == g;
    ParseOfDecimal(uid, MAX_UINT32);
    ParseOfDecimal(gid, MAX_UINT32);
  }
}
