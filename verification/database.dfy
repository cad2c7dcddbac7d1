/** Database settings of `backend/app/database.py`: a connection string of
    the form `Host=…;Port=…;Database=…;Username=…;Password=…;` is matched
    by an anchored regular expression with five lazy groups; without one,
    five environment variables with defaults are used. The SQLAlchemy URL is
    then assembled with only the user name and password URL-encoded. */
module Database {
  import opened Optional
  import opened Text

  // ---------------------------------------------------------------------
  // The connection-string pattern

  /** The literal text in front of each group of the pattern
      `Host=(.*?);Port=(.*?);Database=(.*?);Username=(.*?);Password=(.*?);`.
      Every group is followed by ';'. */
  const FieldKeys: seq<string> := ["Host=", "Port=", "Database=", "Username=", "Password="]

  /** The text the pattern spells out for given group values. */
  function Render(keys: seq<string>, groups: seq<string>): string
    requires |keys| == |groups|
  {
    if keys == [] then [] else keys[0] + groups[0] + ";" + Render(keys[1..], groups[1..])
  }

  /** `.` matches every character except a newline. */
  predicate NoNewline(g: string) {
    '\n' !in g
  }

  /** `groups` is one way for the anchored pattern to match a prefix of `s`. */
  predicate Fits(s: string, keys: seq<string>, groups: seq<string>) {
    && |groups| == |keys|
    && Render(keys, groups) <= s
    && forall i :: 0 <= i < |groups| ==> NoNewline(groups[i])
  }

  /** The order in which a backtracking matcher tries lazy groups: the
      first group as short as possible, then the second, and so on. */
  predicate ShorterFirst(gs: seq<string>, hs: seq<string>)
    requires |gs| == |hs|
  {
    gs == [] || |gs[0]| < |hs[0]| || (|gs[0]| == |hs[0]| && ShorterFirst(gs[1..], hs[1..]))
  }

  /** `re.match` of the pattern with `keys` against `s`: the key must start
      `s`, then its lazy group is tried with every length in turn. */
  function MatchFrom(s: string, keys: seq<string>): (r: Option<seq<string>>)
    ensures r.Some? ==> Fits(s, keys, r.value)
    decreases |keys|, 1, 0
  {
    if keys == [] then Some([])
    else if keys[0] <= s then
      var r := MatchGroup(s[|keys[0]|..], keys[1..], 0);
      if r.Some? then FitsJoin(s, keys, r.value); r else r
    else None
  }

  /** The lazy group `(.*?);` at the start of `t`, trying `t[..n]` first:
      it ends at a ';' after which the rest of the pattern matches, and it
      cannot reach past a newline or the end of the text. */
  function MatchGroup(t: string, keys: seq<string>, n: nat): (r: Option<seq<string>>)
    ensures r.Some? ==> |r.value| == |keys| + 1
    ensures r.Some? ==> var g := r.value[0];
      && n <= |g| < |t| && t[..|g|] == g && t[|g|] == ';' && NoNewline(t[n..|g|])
      && Fits(t[|g| + 1..], keys, r.value[1..])
    decreases |keys| + 1, 0, |t| - n
  {
    if n >= |t| || t[n] == '\n' then None
    else if t[n] == ';' && MatchFrom(t[n + 1..], keys).Some? then Some([t[..n]] + MatchFrom(t[n + 1..], keys).value)
    else
      var r := MatchGroup(t, keys, n + 1);
      if r.Some? then NoNewlineFrom(t, n, |r.value[0]|); r else r
  }

  /** A newline-free stretch extends one character to the left. */
  lemma NoNewlineFrom(t: string, n: nat, m: nat)
    requires n < m <= |t| && t[n] != '\n' && NoNewline(t[n + 1..m])
    ensures NoNewline(t[n..m])
  {
    assert t[n..m] == [t[n]] + t[n + 1..m];
  }

  /** The first key, the first group and ';' start `s`, and the remaining
      keys fit after them. */
  predicate FitsAfterFirst(s: string, keys: seq<string>, gs: seq<string>)
    requires keys != [] && |gs| == |keys|
  {
    && keys[0] <= s
    && var t := s[|keys[0]|..];
       && |gs[0]| < |t| && t[..|gs[0]|] == gs[0] && t[|gs[0]|] == ';' && NoNewline(gs[0])
       && Fits(t[|gs[0]| + 1..], keys[1..], gs[1..])
  }

  /** How a fit decomposes: the first key, the first group, ';', and a fit
      of the remaining keys. */
  lemma FitsStep(s: string, keys: seq<string>, gs: seq<string>)
    requires keys != [] && |gs| == |keys|
    ensures Fits(s, keys, gs) <==> FitsAfterFirst(s, keys, gs)
  {
    if Fits(s, keys, gs) {
      FitsSplit(s, keys, gs);
    }
    if FitsAfterFirst(s, keys, gs) {
      FitsJoin(s, keys, gs);
    }
  }

  lemma FitsSplit(s: string, keys: seq<string>, gs: seq<string>)
    requires keys != [] && Fits(s, keys, gs)
    ensures FitsAfterFirst(s, keys, gs)
  {
    var rest := Render(keys[1..], gs[1..]);
    assert Render(keys, gs) == keys[0] + (gs[0] + ";" + rest);
    GroupPrefix(s, keys[0], gs[0], rest);
    forall i | 0 <= i < |gs[1..]| ensures NoNewline(gs[1..][i]) {
      assert gs[1..][i] == gs[i + 1];
    }
    assert NoNewline(gs[0]);
  }

  lemma FitsJoin(s: string, keys: seq<string>, gs: seq<string>)
    requires keys != [] && |gs| == |keys| && FitsAfterFirst(s, keys, gs)
    ensures Fits(s, keys, gs)
  {
    var rest := Render(keys[1..], gs[1..]);
    var t := s[|keys[0]|..];
    var u := t[|gs[0]| + 1..];
    assert s == keys[0] + t;
    assert t == gs[0] + ";" + u;
    assert rest <= u;
    assert Render(keys, gs) == keys[0] + (gs[0] + ";" + rest);
    forall i | 0 <= i < |gs| ensures NoNewline(gs[i]) {
      if i > 0 {
        assert gs[i] == gs[1..][i - 1];
      }
    }
  }

  /** Reading a key, a group, ';' and some more text off the front of `s`. */
  lemma GroupPrefix(s: string, key: string, g: string, rest: string)
    requires key + (g + ";" + rest) <= s
    ensures key <= s
    ensures var t := s[|key|..]; |g| < |t| && t[..|g|] == g && t[|g|] == ';' && rest <= t[|g| + 1..]
  {
    var t := s[|key|..];
    PrefixDrop(key, g + ";" + rest, s);
    PrefixDrop(g + ";", rest, t);
    PrefixDrop(g, ";" + rest, t);
    assert t[|g|] == (";" + rest)[0];
  }

  /** What follows a prefix's first part starts with its second part. */
  lemma PrefixDrop(a: string, b: string, s: string)
    requires a + b <= s
    ensures a <= s && b <= s[|a|..]
  {
    assert (a + b)[..|a|] == a;
    forall k | 0 <= k < |b| ensures b[k] == s[|a|..][k] {
      assert b[k] == (a + b)[|a| + k];
    }
  }

  /** Whenever the pattern can match, the matcher finds a match, and it is
      the one backtracking reaches first. */
  lemma {:induction false} MatchFromLeast(s: string, keys: seq<string>, hs: seq<string>)
    requires Fits(s, keys, hs)
    ensures MatchFrom(s, keys).Some? && ShorterFirst(MatchFrom(s, keys).value, hs)
    decreases |keys|, 1, 0
  {
    if keys != [] {
      FitsStep(s, keys, hs);
      var t := s[|keys[0]|..];
      MatchGroupLeast(t, keys[1..], 0, hs[0], hs[1..]);
      assert [hs[0]] + hs[1..] == hs;
    }
  }

  lemma {:induction false} MatchGroupLeast(t: string, keys: seq<string>, n: nat, h: string, hs: seq<string>)
    requires n <= |h| < |t| && t[..|h|] == h && t[|h|] == ';' && NoNewline(h)
    requires Fits(t[|h| + 1..], keys, hs)
    ensures MatchGroup(t, keys, n).Some? && ShorterFirst(MatchGroup(t, keys, n).value, [h] + hs)
    decreases |keys| + 1, 0, |t| - n
  {
    assert t[n] != '\n' by {
      if n < |h| {
        assert t[n] == h[n];
      }
    }
    if t[n] == ';' && MatchFrom(t[n + 1..], keys).Some? {
      if n == |h| {
        MatchFromLeast(t[n + 1..], keys, hs);
        var gs := MatchGroup(t, keys, n).value;
        assert gs[1..] == MatchFrom(t[n + 1..], keys).value && ([h] + hs)[1..] == hs;
      }
    } else if n == |h| {
      MatchFromLeast(t[n + 1..], keys, hs);
    } else {
      MatchGroupLeast(t, keys, n + 1, h, hs);
    }
  }

  /** Two fits with the same shortest-first order where the longer one has
      no ';' in any group are the same fit. */
  lemma {:induction false} FitsAgree(s: string, keys: seq<string>, gs: seq<string>, hs: seq<string>)
    requires Fits(s, keys, gs) && Fits(s, keys, hs) && ShorterFirst(gs, hs)
    requires forall i :: 0 <= i < |hs| ==> ';' !in hs[i]
    ensures gs == hs
    decreases |keys|
  {
    if keys != [] {
      FitsStep(s, keys, gs);
      FitsStep(s, keys, hs);
      var t := s[|keys[0]|..];
      if |gs[0]| < |hs[0]| {
        assert false;
      }
      assert gs[0] == hs[0];
      forall i | 0 <= i < |hs[1..]| ensures ';' !in hs[1..][i] {
        assert hs[1..][i] == hs[i + 1];
      }
      FitsAgree(t[|gs[0]| + 1..], keys[1..], gs[1..], hs[1..]);
      assert gs == [gs[0]] + gs[1..] && hs == [hs[0]] + hs[1..];
    }
  }

  /** The last group is cut at the first ';' after its key. */
  lemma {:induction false} LastGroupNoSemicolon(s: string, keys: seq<string>)
    requires keys != [] && MatchFrom(s, keys).Some?
    ensures ';' !in MatchFrom(s, keys).value[|keys| - 1]
    decreases |keys|, 1, 0
  {
    LastGroupAfter(s[|keys[0]|..], keys[1..], 0);
  }

  lemma {:induction false} LastGroupAfter(t: string, keys: seq<string>, n: nat)
    requires n <= |t| && (keys == [] ==> ';' !in t[..n])
    requires MatchGroup(t, keys, n).Some?
    ensures ';' !in MatchGroup(t, keys, n).value[|keys|]
    decreases |keys| + 1, 0, |t| - n
  {
    var gs := MatchGroup(t, keys, n).value;
    if t[n] == ';' && MatchFrom(t[n + 1..], keys).Some? {
      if keys != [] {
        LastGroupNoSemicolon(t[n + 1..], keys);
        assert gs[|keys|] == MatchFrom(t[n + 1..], keys).value[|keys| - 1];
      }
    } else {
      assert t[..n + 1] == t[..n] + [t[n]];
      LastGroupAfter(t, keys, n + 1);
    }
  }

  // ---------------------------------------------------------------------
  // Settings

  /** The five connection settings. */
  datatype Settings = Settings(host: string, port: string, database: string, user: string, password: string)

  /** The groups of the pattern, in pattern order. */
  function Fields(st: Settings): (gs: seq<string>)
    ensures |gs| == |FieldKeys|
  {
    [st.host, st.port, st.database, st.user, st.password]
  }

  function FromFields(gs: seq<string>): Settings
    requires |gs| == |FieldKeys|
  {
    Settings(gs[0], gs[1], gs[2], gs[3], gs[4])
  }

  /** The connection string a settings value spells out. */
  function ConnectionString(st: Settings): string {
    Render(FieldKeys, Fields(st))
  }

  /** `st` is one way to read `s` with the pattern. */
  predicate ReadsAs(s: string, st: Settings) {
    Fits(s, FieldKeys, Fields(st))
  }

  /** `re.match(pattern, CONN_STR)` and `match.groups()`. */
  function ParseConnectionString(s: string): (r: Option<Settings>)
    ensures r.Some? ==> ConnectionString(r.value) <= s
    ensures r.Some? ==>
      && NoNewline(r.value.host) && NoNewline(r.value.port) && NoNewline(r.value.database)
      && NoNewline(r.value.user) && NoNewline(r.value.password)
    ensures r.Some? ==> ';' !in r.value.password
  {
    match MatchFrom(s, FieldKeys)
    case None => None
    case Some(gs) =>
      LastGroupNoSemicolon(s, FieldKeys);
      assert Fields(FromFields(gs)) == gs;
      assert NoNewline(gs[0]) && NoNewline(gs[1]) && NoNewline(gs[2]) && NoNewline(gs[3]) && NoNewline(gs[4]);
      Some(FromFields(gs))
  }

  /** A string the pattern can read is never rejected, and the reading
      taken is the one with the shortest host, then the shortest port, and
      so on. */
  lemma ParseComplete(s: string, st: Settings)
    requires ReadsAs(s, st)
    ensures ParseConnectionString(s).Some?
    ensures ShorterFirst(Fields(ParseConnectionString(s).value), Fields(st))
  {
    MatchFromLeast(s, FieldKeys, Fields(st));
    var gs := MatchFrom(s, FieldKeys).value;
    assert Fields(FromFields(gs)) == gs;
  }

  /** Settings free of ';' and newlines read back from their connection
      string, whatever text follows it. */
  lemma ParseRoundTrip(st: Settings, tail: string)
    requires ';' !in st.host && ';' !in st.port && ';' !in st.database && ';' !in st.user && ';' !in st.password
    requires NoNewline(st.host) && NoNewline(st.port) && NoNewline(st.database) && NoNewline(st.user) && NoNewline(st.password)
    ensures ParseConnectionString(ConnectionString(st) + tail) == Some(st)
  {
    var s := ConnectionString(st) + tail;
    var hs := Fields(st);
    ReadsWithTail(st, tail);
    MatchFromLeast(s, FieldKeys, hs);
    var gs := MatchFrom(s, FieldKeys).value;
    FitsAgree(s, FieldKeys, gs, hs);
    ParseIsMatch(s, gs);
  }

  /** The parse is the match's groups, read as settings. */
  lemma ParseIsMatch(s: string, gs: seq<string>)
    requires MatchFrom(s, FieldKeys) == Some(gs)
    ensures ParseConnectionString(s) == Some(FromFields(gs))
  {
  }

  /** Newline-free settings read as themselves from their connection
      string, whatever follows it. */
  lemma ReadsWithTail(st: Settings, tail: string)
    requires NoNewline(st.host) && NoNewline(st.port) && NoNewline(st.database) && NoNewline(st.user) && NoNewline(st.password)
    ensures ReadsAs(ConnectionString(st) + tail, st)
  {
    var hs := Fields(st);
    assert ConnectionString(st) <= ConnectionString(st) + tail;
    assert forall i :: 0 <= i < |hs| ==> NoNewline(hs[i]);
  }

  /** Appending `";" + b` to the last group appends `b + ";"` to the text. */
  lemma {:induction false} RenderLastGroup(keys: seq<string>, gs: seq<string>, a: string, b: string)
    requires |keys| == |gs| > 0 && gs[|gs| - 1] == a
    ensures Render(keys, gs[..|gs| - 1] + [a + ";" + b]) == Render(keys, gs) + b + ";"
  {
    var longer := gs[..|gs| - 1] + [a + ";" + b];
    if |gs| == 1 {
      assert longer == [a + ";" + b];
    } else {
      RenderLastGroup(keys[1..], gs[1..], a, b);
      assert longer[1..] == gs[1..][..|gs[1..]| - 1] + [a + ";" + b];
      assert longer[0] == gs[0];
    }
  }

  /** A ';' inside the password cuts it short; the rest of the password is
      taken as trailing text and ignored. */
  lemma PasswordCutAtSemicolon(st: Settings, a: string, b: string)
    requires ';' !in st.host && ';' !in st.port && ';' !in st.database && ';' !in st.user && ';' !in a
    requires NoNewline(st.host) && NoNewline(st.port) && NoNewline(st.database) && NoNewline(st.user) && NoNewline(a)
    ensures ParseConnectionString(ConnectionString(st.(password := a + ";" + b))) == Some(st.(password := a))
  {
    var cut := st.(password := a);
    RenderLastGroup(FieldKeys, Fields(cut), a, b);
    assert Fields(cut)[..|Fields(cut)| - 1] + [a + ";" + b] == Fields(st.(password := a + ";" + b));
    assert ConnectionString(st.(password := a + ";" + b)) == ConnectionString(cut) + (b + ";");
    ParseRoundTrip(cut, b + ";");
  }

  /** The process environment `database.py` reads at import. */
  datatype Environment = Environment(
    connectionString: Option<string>,
    user: Option<string>,
    password: Option<string>,
    database: Option<string>,
    host: Option<string>,
    port: Option<string>)

  /** The settings, or the `ValueError` raised for a connection string the
      pattern does not match. */
  datatype Loaded = Loaded(settings: Settings) | InvalidFormat

  const DefaultUser := "postgres"
  const DefaultPassword := "postgres"
  const DefaultDatabase := "app_health"
  const DefaultHost := "localhost"
  const DefaultPort := "5432"

  /** A set, non-empty connection string decides everything; otherwise each
      variable that is set (even to the empty string) is used as is, and
      each one that is not falls back to its default. */
  function LoadSettings(env: Environment): (r: Loaded)
    ensures Truthy(env.connectionString) ==>
      (r.InvalidFormat? <==> ParseConnectionString(env.connectionString.value).None?)
    ensures Truthy(env.connectionString) && r.Loaded? ==>
      ParseConnectionString(env.connectionString.value) == Some(r.settings)
    ensures !Truthy(env.connectionString) ==> r.Loaded?
  {
    if Truthy(env.connectionString) then
      match ParseConnectionString(env.connectionString.value)
      case Some(st) => Loaded(st)
      case None => InvalidFormat
    else
      Loaded(Settings(
        env.host.GetOr(DefaultHost),
        env.port.GetOr(DefaultPort),
        env.database.GetOr(DefaultDatabase),
        env.user.GetOr(DefaultUser),
        env.password.GetOr(DefaultPassword)))
  }

  /** With nothing set, the defaults are used. */
  lemma DefaultsWhenUnset(env: Environment)
    requires env.connectionString.None? || env.connectionString == Some("")
    requires env.user.None? && env.password.None? && env.database.None? && env.host.None? && env.port.None?
    ensures LoadSettings(env) == Loaded(Settings("localhost", "5432", "app_health", "postgres", "postgres"))
  {
  }

  /** Without a connection string every variable that is set is taken
      verbatim. */
  lemma VariablesUsedWhenSet(env: Environment)
    requires !Truthy(env.connectionString)
    requires env.user.Some? && env.password.Some? && env.database.Some? && env.host.Some? && env.port.Some?
    ensures LoadSettings(env)
      == Loaded(Settings(env.host.value, env.port.value, env.database.value, env.user.value, env.password.value))
  {
  }

  /** A connection string overrides the five variables: they are not read. */
  lemma ConnectionStringOverrides(e1: Environment, e2: Environment)
    requires Truthy(e1.connectionString) && e1.connectionString == e2.connectionString
    ensures LoadSettings(e1) == LoadSettings(e2)
  {
  }

  /** Keys are matched case-sensitively: a connection string that starts
      with "host=" instead of "Host=" raises. */
  lemma WrongCaseRejected(env: Environment)
    requires Truthy(env.connectionString) && env.connectionString.value[0] == 'h'
    ensures LoadSettings(env) == InvalidFormat
  {
    assert "Host="[0] == 'H';
  }

  // ---------------------------------------------------------------------
  // The SQLAlchemy URL

  const Scheme := "postgresql://"

  /** `SQLALCHEMY_DATABASE_URL`. `quote` stands for `urllib.parse.quote_plus`,
      applied to the user name and the password only. */
  function DatabaseUrl(st: Settings, quote: string -> string): (url: string)
    ensures |Scheme| <= |url| && url[..|Scheme|] == Scheme
    ensures var place := "@" + st.host + ":" + st.port + "/" + st.database;
      |place| <= |url| && url[|url| - |place|..] == place
  {
    Scheme + quote(st.user) + ":" + quote(st.password) + "@" + st.host + ":" + st.port + "/" + st.database
  }

  /** When the encoding leaves no ':' in the user name and no '@' in the
      password, the URL splits back into the encoded user name, the encoded
      password and the unencoded `host:port/database`. */
  lemma UrlCredentialsRecoverable(st: Settings, quote: string -> string)
    requires ':' !in quote(st.user) && '@' !in quote(st.password)
    ensures |DatabaseUrl(st, quote)| >= |Scheme| && DatabaseUrl(st, quote)[..|Scheme|] == Scheme
    ensures var rest := DatabaseUrl(st, quote)[|Scheme|..];
      && SplitAt(rest, ':') == Some((quote(st.user), quote(st.password) + "@" + st.host + ":" + st.port + "/" + st.database))
      && SplitAt(quote(st.password) + "@" + st.host + ":" + st.port + "/" + st.database, '@')
        == Some((quote(st.password), st.host + ":" + st.port + "/" + st.database))
  {
    var u, p := quote(st.user), quote(st.password);
    var location := st.host + ":" + st.port + "/" + st.database;
    var afterUser := p + "@" + st.host + ":" + st.port + "/" + st.database;
    assert afterUser == p + ['@'] + location;
    var url := DatabaseUrl(st, quote);
    assert url == Scheme + (u + [':'] + afterUser);
    assert url[|Scheme|..] == u + [':'] + afterUser;
    SplitAtOf(u, ':', afterUser);
    SplitAtOf(p, '@', location);
  }
}
