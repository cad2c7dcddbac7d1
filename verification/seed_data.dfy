/** The seeding script `backend/app/seed_data.py`: the helpers that build
    e-mail addresses and fall back to template text when the provider gives
    nothing usable, and the hierarchy of nodes, users, risks and action
    items that `seed()` writes. Every random draw and every provider answer
    is an input. */
module SeedData {
  import opened Optional
  import opened Seqs
  import opened Text
  import opened Models
  import opened Scope
  import opened Provider

  // ---------------------------------------------------------------------
  // Fixed tables

  /** The `continents` table, in dictionary order: each region with its
      sub-regions and their countries. The last two regions have no
      sub-regions. */
  const Continents: seq<(string, seq<(string, seq<string>)>)> := [
    ("Africa", [
      ("East Africa", ["Kenya", "Tanzania", "Uganda"]),
      ("Southern Africa", ["Botswana", "eSwatini", "Lesotho", "Malawi", "Mozambique", "Namibia", "South Africa", "Zambia", "Zimbabwe"]),
      ("West Africa", ["Angola", "Côte d'Ivoire", "Ghana", "Nigeria", "South Sudan"])]),
    ("Isle of Man", []),
    ("Jersey", [])]

  /** The countries seeded directly under the root after the continents. */
  const ExtraCountries: seq<string> := ["Isle of Man", "Jersey"]

  const Segments: seq<string> := [
    "Consumer & Community Banking",
    "Corporate & Investment Bank",
    "Commercial Banking",
    "Asset Management"]

  const BusinessUnitNames: seq<string> := [
    "Business Unit A", "Business Unit B", "Business Unit C", "Business Unit D", "Business Unit E"]

  const Usernames: seq<string> := ["alice", "bob", "carol", "dave", "eve", "frank", "grace", "heidi", "ivan", "judy"]
  const RiskTypes: seq<string> := ["third_party", "change", "incident", "regulatory", "operational"]
  const RiskStatuses: seq<string> := ["open", "closed", "in progress"]
  const ActionStatuses: seq<string> := ["open", "closed", "pending"]

  const RootName := "Root"
  const EmailDomain := ".testbank.com"

  // ---------------------------------------------------------------------
  // sanitize_email_country

  predicate IsLowerAlnum(c: char) {
    IsLower(c) || IsDigit(c)
  }

  /** `re.sub(r"[^a-zA-Z0-9]", "", country).lower()`, one character at a
      time: an ASCII letter or digit is kept, lower-cased; anything else,
      including every non-ASCII letter, is dropped. */
  function Sanitize(country: string): (r: string)
    ensures |r| <= |country|
    ensures forall i :: 0 <= i < |r| ==> IsLowerAlnum(r[i])
  {
    if country == [] then []
    else (if IsAsciiAlnum(country[0]) then [LowerChar(country[0])] else []) + Sanitize(country[1..])
  }

  lemma LowerCons(c: char, t: string)
    ensures Lower([c] + t) == [LowerChar(c)] + Lower(t)
  {
    assert ([c] + t)[1..] == t;
  }

  /** Sanitizing keeps the ASCII letters and digits and lower-cases them,
      which is the same as lower-casing first and keeping the lower-case
      letters and digits. */
  lemma {:induction false} SanitizeKeepsLoweredAlnums(country: string)
    ensures Sanitize(country) == Lower(Filter(country, IsAsciiAlnum))
    ensures Sanitize(country) == Filter(Lower(country), IsLowerAlnum)
  {
    if country != [] {
      var c := country[0];
      var t := country[1..];
      SanitizeKeepsLoweredAlnums(t);
      assert country == [c] + t;
      LowerCons(c, t);
      assert Lower(country)[1..] == Lower(t);
      assert IsAsciiAlnum(c) <==> IsLowerAlnum(LowerChar(c));
      if IsAsciiAlnum(c) {
        assert Filter(country, IsAsciiAlnum) == [c] + Filter(t, IsAsciiAlnum);
        LowerCons(c, Filter(t, IsAsciiAlnum));
      }
    }
  }

  /** Text made of lower-case letters and digits is its own sanitized form. */
  lemma {:induction false} SanitizeFixesLowerAlnum(s: string)
    requires forall i :: 0 <= i < |s| ==> IsLowerAlnum(s[i])
    ensures Sanitize(s) == s
  {
    if s != [] {
      var t := s[1..];
      assert forall i :: 0 <= i < |t| ==> IsLowerAlnum(t[i]) by {
        forall i | 0 <= i < |t| ensures IsLowerAlnum(t[i]) {
          assert t[i] == s[i + 1];
        }
      }
      SanitizeFixesLowerAlnum(t);
      assert s == [s[0]] + t;
    }
  }

  /** Sanitizing twice changes nothing more. */
  lemma SanitizeIdempotent(country: string)
    ensures Sanitize(Sanitize(country)) == Sanitize(country)
  {
    SanitizeFixesLowerAlnum(Sanitize(country));
  }

  /** Sanitizing works character by character, so it distributes over
      concatenation. */
  lemma {:induction false} SanitizeAppend(a: string, b: string)
    ensures Sanitize(a + b) == Sanitize(a) + Sanitize(b)
  {
    if a == [] {
      assert a + b == b;
    } else {
      var head := if IsAsciiAlnum(a[0]) then [LowerChar(a[0])] else [];
      assert (a + b)[0] == a[0];
      assert (a + b)[1..] == a[1..] + b;
      assert Sanitize(a + b) == head + Sanitize(a[1..] + b);
      SanitizeAppend(a[1..], b);
      assert Sanitize(a) == head + Sanitize(a[1..]);
    }
  }

  lemma SanitizeSouth() ensures Sanitize("South") == "south" { }
  lemma SanitizeAfrica() ensures Sanitize(" Africa") == "africa" { }
  lemma SanitizeCote() ensures Sanitize("Côte") == "cte" { }
  lemma SanitizeApostrophe() ensures Sanitize(" d'") == "d" { }
  lemma SanitizeIvoire() ensures Sanitize("Ivoire") == "ivoire" { }

  /** Two country names of the seed: the space and the apostrophe are
      dropped, and so is the non-ASCII 'ô'. The proofs go through short
      pieces of each name (the small lemmas above), because the verifier
      evaluates `Sanitize` on a long literal only at a high cost. */
  lemma SanitizeSouthAfrica()
    ensures Sanitize("South Africa") == "southafrica"
  {
    SanitizeSouth();
    SanitizeAfrica();
    SanitizeAppend("South", " Africa");
    assert "South" + " Africa" == "South Africa";
    assert "south" + "africa" == "southafrica";
  }

  lemma SanitizeCoteDIvoire()
    ensures Sanitize("Côte d'Ivoire") == "ctedivoire"
  {
    SanitizeCote();
    SanitizeApostrophe();
    SanitizeIvoire();
    SanitizeAppend("Côte", " d'");
    SanitizeAppend("Côte" + " d'", "Ivoire");
    assert "Côte" + " d'" + "Ivoire" == "Côte d'Ivoire";
    assert "cte" + "d" + "ivoire" == "ctedivoire";
  }

  // ---------------------------------------------------------------------
  // E-mail addresses

  /** `f"{uname.lower()}@{sanitize_email_country(country)}.testbank.com"`. */
  function Email(uname: string, country: string): (e: string)
    ensures |Lower(uname)| < |e| && e[..|Lower(uname)|] == Lower(uname) && e[|Lower(uname)|] == '@'
    ensures |e| > |EmailDomain| && e[|e| - |EmailDomain|..] == EmailDomain
    ensures |e| == |uname| + 1 + |Sanitize(country)| + |EmailDomain|
  {
    Lower(uname) + "@" + Sanitize(country) + EmailDomain
  }

  lemma NoAtSignInLower(u: string)
    requires '@' !in u
    ensures '@' !in Lower(u)
  {
    var l := Lower(u);
    forall k | 0 <= k < |l| ensures l[k] != '@' {
      assert u[k] != '@';
    }
  }

  lemma NoAtSignInSanitized(country: string)
    ensures '@' !in Sanitize(country) + EmailDomain
  {
    var s := Sanitize(country);
    forall k | 0 <= k < |s| ensures s[k] != '@' {
      assert IsLowerAlnum(s[k]);
    }
    assert '@' !in EmailDomain;
  }

  /** A generated address splits at its only '@' into the lower-cased user
      name and the sanitized country followed by the bank domain, as long as
      the user name holds no '@'. */
  lemma EmailRoundTrip(uname: string, country: string)
    requires '@' !in uname
    ensures SplitAt(Email(uname, country), '@') == Some((Lower(uname), Sanitize(country) + EmailDomain))
    ensures '@' !in Sanitize(country) + EmailDomain
  {
    NoAtSignInLower(uname);
    NoAtSignInSanitized(country);
    var d := Sanitize(country) + EmailDomain;
    assert Email(uname, country) == Lower(uname) + "@" + d;
    SplitAtOf(Lower(uname), '@', d);
  }

  /** Addresses of users whose lower-cased names differ never collide. */
  lemma EmailsDistinct(u1: string, c1: string, u2: string, c2: string)
    requires '@' !in u1 && '@' !in u2
    requires Lower(u1) != Lower(u2)
    ensures Email(u1, c1) != Email(u2, c2)
  {
    EmailRoundTrip(u1, c1);
    EmailRoundTrip(u2, c2);
  }

  // ---------------------------------------------------------------------
  // ai_or_template

  /** `ai_or_template`: the stripped answer when the provider returned a
      non-empty string, and the fallback when it raised or returned `None`,
      an empty string or a non-string. */
  function AiOrTemplate(answer: Outcome, fallback: string): (r: string)
    ensures answer.Raised? ==> r == fallback
    ensures answer.Returned? && !answer.value.Str? ==> r == fallback
    ensures answer == Returned(Str("")) ==> r == fallback
    ensures answer.Returned? && answer.value.Str? && answer.value.text != "" ==>
      exists i, j :: 0 <= i <= j <= |answer.value.text| && r == answer.value.text[i..j]
        && AllSpace(answer.value.text[..i]) && AllSpace(answer.value.text[j..])
    ensures answer.Returned? && answer.value.Str? && answer.value.text != "" && r != [] ==>
      !IsSpace(r[0]) && !IsSpace(r[|r| - 1])
  {
    if answer.Returned? && answer.value.Str? && answer.value.text != "" then Strip(answer.value.text)
    else fallback
  }

  /** A whitespace-only answer is stripped to the empty string; the fallback
      is not used. */
  lemma BlankAnswerGivesEmptyText(s: string, fallback: string)
    requires s != "" && AllSpace(s)
    ensures AiOrTemplate(Returned(Str(s)), fallback) == ""
  {
    StripAllSpace(s);
  }

  lemma StripKeepsTrimmed(s: string)
    requires s != [] && !IsSpace(s[0]) && !IsSpace(s[|s| - 1])
    ensures Strip(s) == s
  {
  }

  /** With the provider unconfigured, seeding stores the provider's "not
      configured" sentence instead of the template text. */
  lemma UnconfiguredProviderLeaksSentinel(cfg: Config, prompt: string, oracle: ProviderCall -> Outcome, fallback: string)
    requires !Ready(BackendOf(cfg.provider), cfg.sdks, cfg.creds)
    ensures AiOrTemplate(GetInsight(cfg, prompt, oracle), fallback) == SentinelOf(BackendOf(cfg.provider))
  {
    var s := SentinelOf(BackendOf(cfg.provider));
    assert s != [] && s[0] != ' ' && s[|s| - 1] == '.';
    StripKeepsTrimmed(s);
  }

  // ---------------------------------------------------------------------
  // Random draws

  /** `random.choice(usernames)` and `random.randint(1, 99)`. */
  datatype UserDraw = UserDraw(nameIndex: nat, number: nat)

  /** The provider's answer for one action description, and
      `random.choice(action_statuses)`. */
  datatype ActionDraw = ActionDraw(answer: Outcome, statusIndex: nat)

  /** `random.choice(risk_types)`, `random.choice(risk_statuses)`, the
      provider's answers for the title and the description, and the action
      draws (`random.randint(1, 2)` of them). */
  datatype RiskDraw = RiskDraw(typeIndex: nat, statusIndex: nat, titleAnswer: Outcome, descriptionAnswer: Outcome, actions: seq<ActionDraw>)

  /** `random.choice(business_unit_names)`, the user draws
      (`random.randint(1, 3)` of them) and the risk draws
      (`random.randint(2, 5)` of them). */
  datatype UnitDraw = UnitDraw(nameIndex: nat, users: seq<UserDraw>, risks: seq<RiskDraw>)

  predicate ValidUserDraw(d: UserDraw) {
    d.nameIndex < |Usernames| && 1 <= d.number <= 99
  }

  predicate ValidRiskDraw(d: RiskDraw) {
    && d.typeIndex < |RiskTypes| && d.statusIndex < |RiskStatuses|
    && 1 <= |d.actions| <= 2
    && forall a :: a in d.actions ==> a.statusIndex < |ActionStatuses|
  }

  predicate ValidUnitDraw(d: UnitDraw) {
    && d.nameIndex < |BusinessUnitNames|
    && 1 <= |d.users| <= 3 && (forall u :: u in d.users ==> ValidUserDraw(u))
    && 2 <= |d.risks| <= 5 && (forall r :: r in d.risks ==> ValidRiskDraw(r))
  }

  /** The business units of one segment: `random.randint(3, 5)` of them. */
  predicate ValidSegmentDraw(us: seq<UnitDraw>) {
    3 <= |us| <= 5 && forall u :: u in us ==> ValidUnitDraw(u)
  }

  /** Every segment of every country gets its own draws. Each (country,
      segment) pair is visited exactly once by `seed()`, so keying the draws
      by the pair loses no generality. */
  ghost predicate ValidDraws(draws: (string, string) -> seq<UnitDraw>) {
    forall country, segment :: ValidSegmentDraw(draws(country, segment))
  }

  /** `f"{random.choice(usernames)}{random.randint(1,99)}"`. */
  function Uname(d: UserDraw): string
    requires ValidUserDraw(d)
  {
    Usernames[d.nameIndex] + NatToString(d.number)
  }

  // ---------------------------------------------------------------------
  // The database being filled

  /** The four tables `seed()` writes, emptied first. Ids come from the
      table's sequence restarted at 1, so the k-th row has id k. */
  datatype Db = Db(nodes: seq<Node>, users: seq<User>, risks: seq<Risk>, actions: seq<ActionItem>)

  /** `crud.create_node`: append a node with the next id. */
  function AddNode(db: Db, name: string, parentId: Option<int>, level: int): Db {
    db.(nodes := db.nodes + [Node(|db.nodes| + 1, name, parentId, level)])
  }

  /** `query(User).filter(User.node_id == node_id).all()[0]`, if any, in
      table order. */
  function FirstUserAt(users: seq<User>, nodeId: int): (r: Option<User>)
    ensures r.Some? ==> r.value in users && r.value.nodeId == Some(nodeId)
    ensures r.None? <==> forall u :: u in users ==> u.nodeId != Some(nodeId)
  {
    if users == [] then None
    else if users[0].nodeId == Some(nodeId) then Some(users[0])
    else FirstUserAt(users[1..], nodeId)
  }

  /** Appending users never changes which user comes first at a node that
      already had one. */
  lemma {:induction false} FirstUserStable(users: seq<User>, more: seq<User>, nodeId: int)
    requires FirstUserAt(users, nodeId).Some?
    ensures FirstUserAt(users + more, nodeId) == FirstUserAt(users, nodeId)
  {
    assert (users + more)[0] == users[0];
    if users[0].nodeId != Some(nodeId) {
      assert (users + more)[1..] == users[1..] + more;
      FirstUserStable(users[1..], more, nodeId);
    }
  }

  /** The table contents only grow. */
  predicate Extends(db: Db, db': Db) {
    db.nodes <= db'.nodes && db.users <= db'.users && db.risks <= db'.risks && db.actions <= db'.actions
  }

  lemma ExtendsTrans(a: Db, b: Db, c: Db)
    requires Extends(a, b) && Extends(b, c)
    ensures Extends(a, c)
  {
  }

  /** Node k has id k; the first node is the level-1 root and every other
      node hangs under an earlier node, one level below it. */
  predicate NodeOk(nodes: seq<Node>, i: int)
    requires 0 <= i < |nodes|
  {
    var n := nodes[i];
    && n.id == i + 1
    && (if i == 0 then n.parentId.None? && n.level == 1
        else n.parentId.Some? && 1 <= n.parentId.value <= i && nodes[n.parentId.value - 1].level + 1 == n.level)
  }

  /** A user has the next id, sits on an existing node of its own level,
      and its address starts with its user name followed by '@'. */
  predicate UserOk(db: Db, j: int)
    requires 0 <= j < |db.users|
  {
    var u := db.users[j];
    && u.id == j + 1
    && u.nodeId.Some? && 1 <= u.nodeId.value <= |db.nodes|
    && db.nodes[u.nodeId.value - 1].level == u.level
    && SplitAt(u.email, '@').Some? && SplitAt(u.email, '@').value.0 == u.username
  }

  predicate RiskOk(db: Db, j: int)
    requires 0 <= j < |db.risks|
  {
    var k := db.risks[j];
    k.id == j + 1 && k.nodeId.Some? && 1 <= k.nodeId.value <= |db.nodes|
  }

  /** An action item belongs to an existing risk and is assigned to the
      first user on that risk's node. */
  predicate ActionOk(db: Db, j: int)
    requires 0 <= j < |db.actions|
  {
    var a := db.actions[j];
    && a.id == j + 1
    && a.riskId.Some? && 1 <= a.riskId.value <= |db.risks|
    && db.risks[a.riskId.value - 1].nodeId.Some?
    && var first := FirstUserAt(db.users, db.risks[a.riskId.value - 1].nodeId.value);
       first.Some? && a.assignedTo == Some(first.value.id)
  }

  function NameOf(users: seq<User>, i: int): string
    requires 0 <= i < |users|
  {
    users[i].username
  }

  /** No two users share a name. */
  predicate UsernamesUnique(users: seq<User>) {
    forall i, j :: 0 <= i < j < |users| ==> NameOf(users, i) != NameOf(users, j)
  }

  /** What every prefix of the seeding keeps true. */
  predicate Consistent(db: Db) {
    && (forall i :: 0 <= i < |db.nodes| ==> NodeOk(db.nodes, i))
    && (forall j :: 0 <= j < |db.users| ==> UserOk(db, j))
    && UsernamesUnique(db.users)
    && (forall j :: 0 <= j < |db.risks| ==> RiskOk(db, j))
    && (forall j :: 0 <= j < |db.actions| ==> ActionOk(db, j))
  }

  lemma NodeOkStable(nodes: seq<Node>, nodes': seq<Node>, i: int)
    requires 0 <= i < |nodes| && nodes <= nodes'
    requires NodeOk(nodes, i)
    ensures NodeOk(nodes', i)
  {
    var n := nodes[i];
    assert nodes'[i] == n;
    if i > 0 {
      assert nodes'[n.parentId.value - 1] == nodes[n.parentId.value - 1];
    }
  }

  lemma UserOkStable(db: Db, db': Db, j: int)
    requires 0 <= j < |db.users| && Extends(db, db')
    requires UserOk(db, j)
    ensures UserOk(db', j)
  {
    var u := db.users[j];
    assert db'.users[j] == u;
    assert db'.nodes[u.nodeId.value - 1] == db.nodes[u.nodeId.value - 1];
  }

  lemma RiskOkStable(db: Db, db': Db, j: int)
    requires 0 <= j < |db.risks| && Extends(db, db')
    requires RiskOk(db, j)
    ensures RiskOk(db', j)
  {
    assert db'.risks[j] == db.risks[j];
  }

  lemma ActionOkStable(db: Db, db': Db, j: int)
    requires 0 <= j < |db.actions| && Extends(db, db')
    requires ActionOk(db, j)
    ensures ActionOk(db', j)
  {
    var a := db.actions[j];
    assert db'.actions[j] == a;
    var k := db.risks[a.riskId.value - 1];
    assert db'.risks[a.riskId.value - 1] == k;
    assert db'.users == db.users + db'.users[|db.users|..];
    FirstUserStable(db.users, db'.users[|db.users|..], k.nodeId.value);
  }

  /** The old rows stay valid when the tables grow; only the new rows and
      the uniqueness of user names need checking. */
  lemma ConsistentExtend(db: Db, db': Db)
    requires Consistent(db) && Extends(db, db')
    requires forall i :: |db.nodes| <= i < |db'.nodes| ==> NodeOk(db'.nodes, i)
    requires forall j :: |db.users| <= j < |db'.users| ==> UserOk(db', j)
    requires UsernamesUnique(db'.users)
    requires forall j :: |db.risks| <= j < |db'.risks| ==> RiskOk(db', j)
    requires forall j :: |db.actions| <= j < |db'.actions| ==> ActionOk(db', j)
    ensures Consistent(db')
  {
    forall i | 0 <= i < |db.nodes| ensures NodeOk(db'.nodes, i) {
      NodeOkStable(db.nodes, db'.nodes, i);
    }
    forall j | 0 <= j < |db.users| ensures UserOk(db', j) {
      UserOkStable(db, db', j);
    }
    forall j | 0 <= j < |db.risks| ensures RiskOk(db', j) {
      RiskOkStable(db, db', j);
    }
    forall j | 0 <= j < |db.actions| ensures ActionOk(db', j) {
      ActionOkStable(db, db', j);
    }
  }

  // ---------------------------------------------------------------------
  // Users

  /** The user names of the list are lower-case letters only. */
  lemma UsernamesLowerCase(i: nat)
    requires i < |Usernames|
    ensures forall k :: 0 <= k < |Usernames[i]| ==> IsLower(Usernames[i][k])
  {
  }

  /** A drawn user name has no upper-case letter and no '@', so lower-casing
      leaves it unchanged. */
  lemma UnameIsPlain(d: UserDraw)
    requires ValidUserDraw(d)
    ensures Lower(Uname(d)) == Uname(d)
    ensures '@' !in Uname(d)
  {
    var a := Usernames[d.nameIndex];
    var b := NatToString(d.number);
    var s := Uname(d);
    UsernamesLowerCase(d.nameIndex);
    forall k | 0 <= k < |s| ensures !IsUpper(s[k]) && s[k] != '@' {
      if k < |a| {
        assert s[k] == a[k];
        assert IsLower(a[k]);
      } else {
        assert s[k] == b[k - |a|];
        assert IsDigit(b[k - |a|]);
      }
    }
    assert forall k :: 0 <= k < |s| ==> Lower(s)[k] == s[k];
  }

  /** `db.query(User).filter(User.username == uname).first()` finds a row. */
  predicate UsernameTaken(users: seq<User>, uname: string) {
    exists u :: u in users && u.username == uname
  }

  /** `crud.create_user` for a name not yet taken. */
  function AddUser(db: Db, uname: string, country: string, nodeId: int, level: int): Db {
    db.(users := db.users + [User(|db.users| + 1, uname, Email(uname, country), Some(nodeId), level, true)])
  }

  lemma AddUserConsistent(db: Db, d: UserDraw, country: string, nodeId: int, level: int)
    requires Consistent(db) && ValidUserDraw(d)
    requires !UsernameTaken(db.users, Uname(d))
    requires 1 <= nodeId <= |db.nodes| && db.nodes[nodeId - 1].level == level
    ensures Consistent(AddUser(db, Uname(d), country, nodeId, level))
  {
    var uname := Uname(d);
    var db' := AddUser(db, uname, country, nodeId, level);
    UnameIsPlain(d);
    EmailRoundTrip(uname, country);
    assert UserOk(db', |db.users|);
    forall i, j | 0 <= i < j < |db'.users| ensures NameOf(db'.users, i) != NameOf(db'.users, j) {
      if j == |db.users| {
        assert db'.users[i] in db.users;
      } else {
        assert db'.users[i] == db.users[i] && db'.users[j] == db.users[j];
        assert NameOf(db.users, i) != NameOf(db.users, j);
      }
    }
    ConsistentExtend(db, db');
  }

  /** One pass of the user loop: create the user unless the name is taken. */
  function UserStep(db: Db, country: string, unitId: int, level: int, d: UserDraw): (r: Db)
    requires Consistent(db) && ValidUserDraw(d)
    requires 1 <= unitId <= |db.nodes| && db.nodes[unitId - 1].level == level
    ensures Consistent(r) && Extends(db, r)
    ensures r.nodes == db.nodes && r.risks == db.risks && r.actions == db.actions
    ensures UsernameTaken(db.users, Uname(d)) ==> r == db
    ensures !UsernameTaken(db.users, Uname(d)) ==>
      |r.users| == |db.users| + 1 && r.users[|db.users|].nodeId == Some(unitId) && r.users[|db.users|].username == Uname(d)
    ensures UsernameTaken(r.users, Uname(d))
  {
    if UsernameTaken(db.users, Uname(d)) then db
    else
      AddUserConsistent(db, d, country, unitId, level);
      var r := AddUser(db, Uname(d), country, unitId, level);
      assert r.users[|db.users|] in r.users;
      r
  }

  /** Every user from index `from` on sits on node `unitId`. */
  predicate UsersAt(users: seq<User>, from: nat, unitId: int) {
    forall j :: from <= j < |users| ==> users[j].nodeId == Some(unitId)
  }

  lemma UsersAtTrans(a: seq<User>, b: seq<User>, c: seq<User>, unitId: int)
    requires a <= b <= c && |b| <= |a| + 1 && UsersAt(b, |a|, unitId)
    requires UsersAt(c, |b|, unitId)
    ensures UsersAt(c, |a|, unitId)
  {
    if |b| > |a| {
      assert c[|a|] == b[|a|];
    }
  }

  /** The user names the draws ask for. */
  function Unames(draws: seq<UserDraw>): (ns: seq<string>)
    requires forall d :: d in draws ==> ValidUserDraw(d)
    ensures |ns| == |draws| && forall i :: 0 <= i < |draws| ==> ns[i] == Uname(draws[i])
  {
    if draws == [] then []
    else
      assert forall d :: d in draws[1..] ==> d in draws;
      [Uname(draws[0])] + Unames(draws[1..])
  }

  /** Every user from index `from` on has one of `names`. */
  predicate NamedFrom(users: seq<User>, from: nat, names: seq<string>) {
    forall j :: from <= j < |users| ==> users[j].username in names
  }

  /** Users named from `rest` after `b`, preceded by at most one user named
      `first`, are named from `[first] + rest`. */
  lemma NamedFromTrans(a: seq<User>, b: seq<User>, c: seq<User>, first: string, rest: seq<string>)
    requires a <= b <= c && |b| <= |a| + 1
    requires |b| > |a| ==> b[|a|].username == first
    requires NamedFrom(c, |b|, rest)
    ensures NamedFrom(c, |a|, [first] + rest)
  {
    var ns := [first] + rest;
    forall j | |a| <= j < |c| ensures c[j].username in ns {
      if j < |b| {
        assert c[j] == b[|a|];
        assert ns[0] == c[j].username;
      } else {
        var k :| 0 <= k < |rest| && rest[k] == c[j].username;
        assert ns[k + 1] == rest[k];
      }
    }
  }

  /** The user loop of one business unit: each drawn name becomes a user
      on the unit unless a user of that name already exists. */
  method SeedUsers(db: Db, country: string, unitId: int, level: int, draws: seq<UserDraw>) returns (r: Db)
    requires Consistent(db)
    requires 1 <= unitId <= |db.nodes| && db.nodes[unitId - 1].level == level
    requires forall d :: d in draws ==> ValidUserDraw(d)
    ensures Consistent(r) && Extends(db, r)
    ensures r.nodes == db.nodes && r.risks == db.risks && r.actions == db.actions
    ensures |r.users| <= |db.users| + |draws|
    ensures UsersAt(r.users, |db.users|, unitId)
    ensures NamedFrom(r.users, |db.users|, Unames(draws))
    ensures forall d :: d in draws ==> UsernameTaken(r.users, Uname(d))
    decreases |draws|
  {
    if draws == [] {
      return db;
    }
    var db1 := UserStep(db, country, unitId, level, draws[0]);
    assert forall d :: d in draws[1..] ==> d in draws;
    r := SeedUsers(db1, country, unitId, level, draws[1..]);
    UsersAtTrans(db.users, db1.users, r.users, unitId);
    assert Unames(draws) == [Uname(draws[0])] + Unames(draws[1..]);
    NamedFromTrans(db.users, db1.users, r.users, Uname(draws[0]), Unames(draws[1..]));
    assert UsernameTaken(r.users, Uname(draws[0])) by {
      var u :| u in db1.users && u.username == Uname(draws[0]);
      assert u in r.users;
    }
  }

  // ---------------------------------------------------------------------
  // Risks and action items

  /** `f"{rtype.title()} Risk {r+1}"`. */
  function TitleFallback(riskType: string, r: nat): string {
    Title(riskType) + " Risk " + NatToString(r + 1)
  }

  /** `f"Sample description for {rtype} risk in {bu_name}, {segment}, {country}."`. */
  function DescriptionFallback(riskType: string, unitName: string, segment: string, country: string): string {
    "Sample description for " + riskType + " risk in " + unitName + ", " + segment + ", " + country + "."
  }

  /** `f"Action item {a+1} for {rtitle} in {bu_name}, {segment}, {country}."`. */
  function ActionFallback(a: nat, title: string, unitName: string, segment: string, country: string): string {
    "Action item " + NatToString(a + 1) + " for " + title + " in " + unitName + ", " + segment + ", " + country + "."
  }

  /** A user found in a consistent table has a non-zero id, so
      `if assigned_to:` always holds once a user is found. */
  lemma FoundUserIdPositive(db: Db, nodeId: int)
    requires Consistent(db)
    requires FirstUserAt(db.users, nodeId).Some?
    ensures FirstUserAt(db.users, nodeId).value.id >= 1
  {
    var u := FirstUserAt(db.users, nodeId).value;
    var j :| 0 <= j < |db.users| && db.users[j] == u;
    assert UserOk(db, j);
  }

  /** One pass of the action loop: the item is created, assigned to the
      first user on the unit, only when the unit has a user. */
  function ActionStep(db: Db, unitId: int, riskId: int, description: string, status: string): (r: Db)
    requires Consistent(db)
    requires 1 <= riskId <= |db.risks| && db.risks[riskId - 1].nodeId == Some(unitId)
    ensures Consistent(r) && Extends(db, r)
    ensures r.nodes == db.nodes && r.users == db.users && r.risks == db.risks
    ensures FirstUserAt(db.users, unitId).None? ==> r == db
    ensures FirstUserAt(db.users, unitId).Some? ==>
      && |r.actions| == |db.actions| + 1
      && r.actions[|db.actions|].riskId == Some(riskId)
      && r.actions[|db.actions|].assignedTo == Some(FirstUserAt(db.users, unitId).value.id)
      && r.actions[|db.actions|].description == description
  {
    var assignedTo := FirstUserAt(db.users, unitId);
    if assignedTo.Some? && assignedTo.value.id != 0 then
      var r := db.(actions := db.actions + [ActionItem(|db.actions| + 1, description, Some(riskId), Some(assignedTo.value.id), Some(status))]);
      assert ActionOk(r, |db.actions|);
      ConsistentExtend(db, r);
      r
    else
      if assignedTo.Some? then FoundUserIdPositive(db, unitId); db else db
  }

  /** Every action item from index `from` on belongs to risk `riskId` and
      is assigned to user `userId`. */
  predicate ActionsFor(actions: seq<ActionItem>, from: nat, riskId: int, userId: int) {
    forall j :: from <= j < |actions| ==> actions[j].riskId == Some(riskId) && actions[j].assignedTo == Some(userId)
  }

  lemma ActionsForTrans(a: seq<ActionItem>, b: seq<ActionItem>, c: seq<ActionItem>, riskId: int, userId: int)
    requires a <= b <= c && |b| == |a| + 1
    requires b[|a|].riskId == Some(riskId) && b[|a|].assignedTo == Some(userId)
    requires ActionsFor(c, |b|, riskId, userId)
    ensures ActionsFor(c, |a|, riskId, userId)
  {
    assert c[|a|] == b[|a|];
  }

  /** The action loop of one risk. */
  method SeedActions(db: Db, country: string, segment: string, unitName: string, unitId: int, title: string, riskId: int, draws: seq<ActionDraw>, a: nat) returns (r: Db)
    requires Consistent(db)
    requires 1 <= riskId <= |db.risks| && db.risks[riskId - 1].nodeId == Some(unitId)
    requires forall d :: d in draws ==> d.statusIndex < |ActionStatuses|
    ensures Consistent(r) && Extends(db, r)
    ensures r.nodes == db.nodes && r.users == db.users && r.risks == db.risks
    ensures FirstUserAt(db.users, unitId).None? ==> r == db
    ensures FirstUserAt(db.users, unitId).Some? ==>
      && |r.actions| == |db.actions| + |draws|
      && ActionsFor(r.actions, |db.actions|, riskId, FirstUserAt(db.users, unitId).value.id)
    decreases |draws|
  {
    if draws == [] {
      return db;
    }
    var d := draws[0];
    var description := AiOrTemplate(d.answer, ActionFallback(a, title, unitName, segment, country));
    var db1 := ActionStep(db, unitId, riskId, description, ActionStatuses[d.statusIndex]);
    assert forall e :: e in draws[1..] ==> e in draws;
    r := SeedActions(db1, country, segment, unitName, unitId, title, riskId, draws[1..], a + 1);
    if FirstUserAt(db.users, unitId).Some? {
      ActionsForTrans(db.actions, db1.actions, r.actions, riskId, FirstUserAt(db.users, unitId).value.id);
    }
  }

  /** How many action items the risk draws ask for. */
  function ActionCount(draws: seq<RiskDraw>): nat {
    if draws == [] then 0 else |draws[0].actions| + ActionCount(draws[1..])
  }

  /** Each risk asks for one or two action items. */
  lemma {:induction false} ActionCountBounds(draws: seq<RiskDraw>)
    requires forall d :: d in draws ==> ValidRiskDraw(d)
    ensures |draws| <= ActionCount(draws) <= 2 * |draws|
  {
    if draws != [] {
      assert draws[0] in draws && forall d :: d in draws[1..] ==> d in draws;
      ActionCountBounds(draws[1..]);
    }
  }

  /** One pass of the risk loop: the risk, with provider or template title
      and description, then its action items. */
  method RiskStep(db: Db, country: string, segment: string, unitName: string, unitId: int, d: RiskDraw, r: nat) returns (db': Db)
    requires Consistent(db) && ValidRiskDraw(d)
    requires 1 <= unitId <= |db.nodes|
    ensures Consistent(db') && Extends(db, db')
    ensures db'.nodes == db.nodes && db'.users == db.users
    ensures |db'.risks| == |db.risks| + 1 && db'.risks[|db.risks|].nodeId == Some(unitId)
    ensures db'.risks[|db.risks|].riskType == Some(RiskTypes[d.typeIndex])
    ensures FirstUserAt(db.users, unitId).None? ==> db'.actions == db.actions
    ensures FirstUserAt(db.users, unitId).Some? ==> |db'.actions| == |db.actions| + |d.actions|
  {
    var riskType := RiskTypes[d.typeIndex];
    var title := AiOrTemplate(d.titleAnswer, TitleFallback(riskType, r));
    var description := AiOrTemplate(d.descriptionAnswer, DescriptionFallback(riskType, unitName, segment, country));
    var riskId := |db.risks| + 1;
    var db1 := db.(risks := db.risks + [Risk(riskId, title, Some(description), Some(unitId), Some(riskType), Some(RiskStatuses[d.statusIndex]))]);
    assert RiskOk(db1, |db.risks|);
    ConsistentExtend(db, db1);
    db' := SeedActions(db1, country, segment, unitName, unitId, title, riskId, d.actions, 0);
  }

  /** Every risk from index `from` on belongs to node `unitId`. */
  predicate RisksAt(risks: seq<Risk>, from: nat, unitId: int) {
    forall j :: from <= j < |risks| ==> risks[j].nodeId == Some(unitId)
  }

  lemma RisksAtTrans(a: seq<Risk>, b: seq<Risk>, c: seq<Risk>, unitId: int)
    requires a <= b <= c && |b| == |a| + 1 && b[|a|].nodeId == Some(unitId)
    requires RisksAt(c, |b|, unitId)
    ensures RisksAt(c, |a|, unitId)
  {
    assert c[|a|] == b[|a|];
  }

  /** The risk loop of one business unit. */
  method SeedRisks(db: Db, country: string, segment: string, unitName: string, unitId: int, draws: seq<RiskDraw>, r: nat) returns (db': Db)
    requires Consistent(db)
    requires 1 <= unitId <= |db.nodes|
    requires forall d :: d in draws ==> ValidRiskDraw(d)
    ensures Consistent(db') && Extends(db, db')
    ensures db'.nodes == db.nodes && db'.users == db.users
    ensures |db'.risks| == |db.risks| + |draws|
    ensures RisksAt(db'.risks, |db.risks|, unitId)
    ensures FirstUserAt(db.users, unitId).None? ==> db'.actions == db.actions
    ensures FirstUserAt(db.users, unitId).Some? ==> |db'.actions| == |db.actions| + ActionCount(draws)
    decreases |draws|
  {
    if draws == [] {
      return db;
    }
    var db1 := RiskStep(db, country, segment, unitName, unitId, draws[0], r);
    assert forall e :: e in draws[1..] ==> e in draws;
    db' := SeedRisks(db1, country, segment, unitName, unitId, draws[1..], r + 1);
    RisksAtTrans(db.risks, db1.risks, db'.risks, unitId);
  }

  // ---------------------------------------------------------------------
  // The node hierarchy

  lemma AddNodeConsistent(db: Db, name: string, parentId: int, level: int)
    requires Consistent(db)
    requires 1 <= parentId <= |db.nodes| && db.nodes[parentId - 1].level + 1 == level
    ensures Consistent(AddNode(db, name, Some(parentId), level))
  {
    var db' := AddNode(db, name, Some(parentId), level);
    assert NodeOk(db'.nodes, |db.nodes|);
    ConsistentExtend(db, db');
  }

  /** Every node added between `db` and `r` hangs under `parentId` or under
      another node added in between. */
  predicate NewNodesUnder(nodes: seq<Node>, nodes': seq<Node>, parentId: int)
    requires |nodes| <= |nodes'|
  {
    forall i :: |nodes| <= i < |nodes'| ==>
      nodes'[i].parentId.Some? && (nodes'[i].parentId.value == parentId || nodes'[i].parentId.value > |nodes|)
  }

  lemma NewNodesUnderTrans(a: seq<Node>, b: seq<Node>, c: seq<Node>, parentId: int)
    requires a <= b <= c
    requires NewNodesUnder(a, b, parentId) && NewNodesUnder(b, c, parentId)
    ensures NewNodesUnder(a, c, parentId)
  {
    forall i | |a| <= i < |c|
      ensures c[i].parentId.Some? && (c[i].parentId.value == parentId || c[i].parentId.value > |a|)
    {
      if i < |b| {
        assert c[i] == b[i];
      }
    }
  }

  /** Every node added between `db` and `r` is a child of `parentId` at
      `level`. */
  predicate ChildrenAdded(nodes: seq<Node>, nodes': seq<Node>, parentId: int, level: int)
    requires |nodes| <= |nodes'|
  {
    forall i :: |nodes| <= i < |nodes'| ==> nodes'[i].parentId == Some(parentId) && nodes'[i].level == level
  }

  lemma ChildrenAddedTrans(a: seq<Node>, b: seq<Node>, c: seq<Node>, parentId: int, level: int)
    requires a <= b <= c
    requires ChildrenAdded(a, b, parentId, level) && ChildrenAdded(b, c, parentId, level)
    ensures ChildrenAdded(a, c, parentId, level)
  {
    forall i | |a| <= i < |c|
      ensures c[i].parentId == Some(parentId) && c[i].level == level
    {
      if i < |b| {
        assert c[i] == b[i];
      }
    }
  }

  /** Nodes added under a node that was itself just added under `parentId`
      count as added under `parentId`. */
  lemma NestedUnder(a: seq<Node>, b: seq<Node>, c: seq<Node>, parentId: int)
    requires a <= b <= c && |b| == |a| + 1 && b[|a|].parentId == Some(parentId)
    requires NewNodesUnder(b, c, |a| + 1)
    ensures NewNodesUnder(a, c, parentId)
  {
    assert c[|a|] == b[|a|];
  }

  lemma ChildrenAreNewNodes(a: seq<Node>, b: seq<Node>, parentId: int, level: int)
    requires |a| <= |b| && ChildrenAdded(a, b, parentId, level)
    ensures NewNodesUnder(a, b, parentId)
  {
  }

  /** Adding a node under `parentId` adds one child of it. */
  lemma AddNodeAddsChild(db: Db, name: string, parentId: int, level: int)
    ensures var db' := AddNode(db, name, Some(parentId), level);
      Extends(db, db') && |db'.nodes| == |db.nodes| + 1
      && ChildrenAdded(db.nodes, db'.nodes, parentId, level) && NewNodesUnder(db.nodes, db'.nodes, parentId)
  {
  }

  /** A unit created after `db` has a first user exactly when users were
      added, because only the new users can sit on it. */
  lemma FreshUnitUsers(db: Db, db2: Db, unitId: int)
    requires Consistent(db) && Extends(db, db2) && unitId == |db.nodes| + 1
    requires UsersAt(db2.users, |db.users|, unitId)
    ensures FirstUserAt(db2.users, unitId).Some? <==> |db2.users| > |db.users|
  {
    forall j | 0 <= j < |db.users| ensures db2.users[j].nodeId != Some(unitId) {
      assert UserOk(db, j);
      assert db2.users[j] == db.users[j];
    }
    if |db2.users| > |db.users| {
      assert db2.users[|db.users|] in db2.users;
    } else {
      forall u | u in db2.users ensures u.nodeId != Some(unitId) {
        var j :| 0 <= j < |db2.users| && db2.users[j] == u;
      }
    }
  }

  /** `f"{random.choice(bu_names)} {i+1}"`. */
  function UnitName(nameIndex: nat, i: nat): string
    requires nameIndex < |BusinessUnitNames|
  {
    BusinessUnitNames[nameIndex] + " " + NatToString(i + 1)
  }

  /** The node of a business unit and the users drawn for it. */
  method UnitWithUsers(db: Db, country: string, unitName: string, segmentId: int, level: int, users: seq<UserDraw>) returns (r: Db)
    requires Consistent(db) && forall u :: u in users ==> ValidUserDraw(u)
    requires 1 <= segmentId <= |db.nodes| && db.nodes[segmentId - 1].level + 1 == level
    ensures Consistent(r) && Extends(db, r)
    ensures |r.nodes| == |db.nodes| + 1 && ChildrenAdded(db.nodes, r.nodes, segmentId, level)
    ensures r.risks == db.risks && r.actions == db.actions
    ensures |r.users| <= |db.users| + |users| && UsersAt(r.users, |db.users|, |db.nodes| + 1)
    ensures FirstUserAt(r.users, |db.nodes| + 1).Some? <==> |r.users| > |db.users|
  {
    var unitId := |db.nodes| + 1;
    AddNodeConsistent(db, unitName, segmentId, level);
    AddNodeAddsChild(db, unitName, segmentId, level);
    var db1 := AddNode(db, unitName, Some(segmentId), level);
    r := SeedUsers(db1, country, unitId, level, users);
    ExtendsTrans(db, db1, r);
    FreshUnitUsers(db, r, unitId);
  }

  /** One business unit: its node under the segment, its users, then its
      risks and their action items. The user level is the same literal as
      the unit level in both loops of `seed()`. */
  method SeedUnit(db: Db, country: string, segment: string, segmentId: int, level: int, i: nat, d: UnitDraw) returns (r: Db)
    requires Consistent(db) && ValidUnitDraw(d)
    requires 1 <= segmentId <= |db.nodes| && db.nodes[segmentId - 1].level + 1 == level
    ensures Consistent(r) && Extends(db, r)
    ensures |r.nodes| == |db.nodes| + 1 && ChildrenAdded(db.nodes, r.nodes, segmentId, level)
    ensures |r.users| <= |db.users| + |d.users| && UsersAt(r.users, |db.users|, |db.nodes| + 1)
    ensures |r.risks| == |db.risks| + |d.risks| && RisksAt(r.risks, |db.risks|, |db.nodes| + 1)
    ensures |r.users| == |db.users| ==> r.actions == db.actions
    ensures |r.users| > |db.users| ==> |r.actions| == |db.actions| + ActionCount(d.risks)
    ensures |r.users| - |db.users| <= 3 && 2 <= |r.risks| - |db.risks| <= 5
    ensures |r.users| > |db.users| ==> |d.risks| <= |r.actions| - |db.actions| <= 2 * |d.risks|
  {
    ActionCountBounds(d.risks);
    var unitName := UnitName(d.nameIndex, i);
    var db1 := UnitWithUsers(db, country, unitName, segmentId, level, d.users);
    r := SeedRisks(db1, country, segment, unitName, |db.nodes| + 1, d.risks, 0);
    ExtendsTrans(db, db1, r);
  }



  /** `for i in range(bu_count)` over the units of one segment. */
  method SeedUnits(db: Db, country: string, segment: string, segmentId: int, level: int, units: seq<UnitDraw>, i: nat) returns (r: Db)
    requires Consistent(db) && forall d :: d in units ==> ValidUnitDraw(d)
    requires 1 <= segmentId <= |db.nodes| && db.nodes[segmentId - 1].level + 1 == level
    ensures Consistent(r) && Extends(db, r)
    ensures |r.nodes| == |db.nodes| + |units| && ChildrenAdded(db.nodes, r.nodes, segmentId, level)
    decreases |units|
  {
    if units == [] {
      return db;
    }
    var db1 := SeedUnit(db, country, segment, segmentId, level, i, units[0]);
    assert forall e :: e in units[1..] ==> e in units;
    assert db1.nodes[segmentId - 1] == db.nodes[segmentId - 1];
    r := SeedUnits(db1, country, segment, segmentId, level, units[1..], i + 1);
    ChildrenAddedTrans(db.nodes, db1.nodes, r.nodes, segmentId, level);
    ExtendsTrans(db, db1, r);
  }

  /** Node `i` is a child of `parentId` at `level`. */
  predicate IsChild(nodes: seq<Node>, i: int, parentId: int, level: int)
    requires 0 <= i < |nodes|
  {
    nodes[i].parentId == Some(parentId) && nodes[i].level == level
  }

  /** Node `i` is a business unit whose parent is a segment of country
      `countryId` added from position `from` on. */
  predicate IsUnitFrom(nodes: seq<Node>, from: int, i: int, countryId: int, segmentLevel: int, unitLevel: int)
    requires 0 <= from && 0 <= i < |nodes|
  {
    && nodes[i].level == unitLevel && nodes[i].parentId.Some?
    && from < nodes[i].parentId.value <= |nodes|
    && IsChild(nodes, nodes[i].parentId.value - 1, countryId, segmentLevel)
  }

  /** From position `from` on, every node is a segment of the country or a
      business unit of one of those segments: the two layers below a
      country. */
  predicate SegmentsAndUnits(nodes: seq<Node>, from: int, countryId: int, segmentLevel: int, unitLevel: int)
    requires 0 <= from <= |nodes|
  {
    forall i :: from <= i < |nodes| ==>
      IsChild(nodes, i, countryId, segmentLevel) || IsUnitFrom(nodes, from, i, countryId, segmentLevel, unitLevel)
  }

  /** A child called `name` was added under `parentId` at `level`, from
      position `from` on. */
  predicate HasChildNamed(nodes: seq<Node>, from: int, name: string, parentId: int, level: int)
    requires 0 <= from <= |nodes|
  {
    exists i :: from <= i < |nodes| && nodes[i].name == name && IsChild(nodes, i, parentId, level)
  }

  lemma SegmentsAndUnitsTrans(b: seq<Node>, c: seq<Node>, from: int, countryId: int, segmentLevel: int, unitLevel: int)
    requires b <= c && 0 <= from <= |b|
    requires SegmentsAndUnits(b, from, countryId, segmentLevel, unitLevel)
    requires SegmentsAndUnits(c, |b|, countryId, segmentLevel, unitLevel)
    ensures SegmentsAndUnits(c, from, countryId, segmentLevel, unitLevel)
  {
    forall i | from <= i < |c|
      ensures IsChild(c, i, countryId, segmentLevel) || IsUnitFrom(c, from, i, countryId, segmentLevel, unitLevel)
    {
      if i < |b| {
        assert c[i] == b[i];
        if !IsChild(b, i, countryId, segmentLevel) {
          assert IsUnitFrom(b, from, i, countryId, segmentLevel, unitLevel);
          assert c[c[i].parentId.value - 1] == b[b[i].parentId.value - 1];
        }
      } else {
        assert IsChild(c, i, countryId, segmentLevel) || IsUnitFrom(c, |b|, i, countryId, segmentLevel, unitLevel);
      }
    }
  }

  /** The two layers below a country sit at the segment and unit levels. */
  lemma SegmentsAndUnitsLevels(nodes: seq<Node>, from: int, countryId: int, segmentLevel: int, unitLevel: int)
    requires 0 <= from <= |nodes| && SegmentsAndUnits(nodes, from, countryId, segmentLevel, unitLevel)
    ensures forall i :: from <= i < |nodes| ==> nodes[i].level == segmentLevel || nodes[i].level == unitLevel
  {
    forall i | from <= i < |nodes| ensures nodes[i].level == segmentLevel || nodes[i].level == unitLevel {
      assert IsChild(nodes, i, countryId, segmentLevel) || IsUnitFrom(nodes, from, i, countryId, segmentLevel, unitLevel);
    }
  }

  lemma HasChildFrom(c: seq<Node>, from: int, from': int, name: string, parentId: int, level: int)
    requires 0 <= from' <= from <= |c|
    requires HasChildNamed(c, from, name, parentId, level)
    ensures HasChildNamed(c, from', name, parentId, level)
  {
    var i :| from <= i < |c| && c[i].name == name && IsChild(c, i, parentId, level);
  }

  /** One segment of a country: its node, then the business units drawn for
      that country and segment. */
  method SeedSegment(
    db: Db, country: string, countryId: int, segmentLevel: int, unitLevel: int,
    segment: string, draws: (string, string) -> seq<UnitDraw>) returns (r: Db)
    requires Consistent(db) && ValidDraws(draws)
    requires 1 <= countryId <= |db.nodes| && db.nodes[countryId - 1].level + 1 == segmentLevel
    requires segmentLevel + 1 == unitLevel
    ensures Consistent(r) && Extends(db, r) && |db.nodes| < |r.nodes|
    ensures NewNodesUnder(db.nodes, r.nodes, countryId)
    ensures r.nodes[|db.nodes|] == Node(|db.nodes| + 1, segment, Some(countryId), segmentLevel)
    ensures 4 <= |r.nodes| - |db.nodes| <= 6
    ensures ChildrenAdded(r.nodes[..|db.nodes| + 1], r.nodes, |db.nodes| + 1, unitLevel)
    ensures SegmentsAndUnits(r.nodes, |db.nodes|, countryId, segmentLevel, unitLevel)
  {
    var segmentId := |db.nodes| + 1;
    AddNodeConsistent(db, segment, countryId, segmentLevel);
    AddNodeAddsChild(db, segment, countryId, segmentLevel);
    var db1 := AddNode(db, segment, Some(countryId), segmentLevel);
    assert ValidSegmentDraw(draws(country, segment));
    r := SeedUnits(db1, country, segment, segmentId, unitLevel, draws(country, segment), 0);
    ChildrenAreNewNodes(db1.nodes, r.nodes, segmentId, unitLevel);
    NestedUnder(db.nodes, db1.nodes, r.nodes, countryId);
    ExtendsTrans(db, db1, r);
    assert r.nodes[|db.nodes|] == db1.nodes[|db.nodes|];
    assert r.nodes[..|db.nodes| + 1] == db1.nodes;
    forall i | |db.nodes| <= i < |r.nodes|
      ensures IsChild(r.nodes, i, countryId, segmentLevel) || IsUnitFrom(r.nodes, |db.nodes|, i, countryId, segmentLevel, unitLevel)
    {
      if i > |db.nodes| {
        assert r.nodes[i].parentId == Some(segmentId);
        assert IsChild(r.nodes, segmentId - 1, countryId, segmentLevel);
      }
    }
  }

  /** `for segment in segments` under one country. */
  method SeedSegments(
    db: Db, country: string, countryId: int, segmentLevel: int, unitLevel: int,
    segments: seq<string>, draws: (string, string) -> seq<UnitDraw>) returns (r: Db)
    requires Consistent(db) && ValidDraws(draws)
    requires 1 <= countryId <= |db.nodes| && db.nodes[countryId - 1].level + 1 == segmentLevel
    requires segmentLevel + 1 == unitLevel
    ensures Consistent(r) && Extends(db, r) && |db.nodes| + |segments| <= |r.nodes|
    ensures NewNodesUnder(db.nodes, r.nodes, countryId)
    ensures segments != [] ==> r.nodes[|db.nodes|] == Node(|db.nodes| + 1, segments[0], Some(countryId), segmentLevel)
    ensures SegmentsAndUnits(r.nodes, |db.nodes|, countryId, segmentLevel, unitLevel)
    ensures forall k :: 0 <= k < |segments| ==> HasChildNamed(r.nodes, |db.nodes|, segments[k], countryId, segmentLevel)
    decreases |segments|
  {
    if segments == [] {
      return db;
    }
    var db1 := SeedSegment(db, country, countryId, segmentLevel, unitLevel, segments[0], draws);
    assert db1.nodes[countryId - 1] == db.nodes[countryId - 1];
    r := SeedSegments(db1, country, countryId, segmentLevel, unitLevel, segments[1..], draws);
    NewNodesUnderTrans(db.nodes, db1.nodes, r.nodes, countryId);
    ExtendsTrans(db, db1, r);
    assert r.nodes[|db.nodes|] == db1.nodes[|db.nodes|];
    SegmentsAndUnitsTrans(db1.nodes, r.nodes, |db.nodes|, countryId, segmentLevel, unitLevel);
    forall k | 0 <= k < |segments| ensures HasChildNamed(r.nodes, |db.nodes|, segments[k], countryId, segmentLevel) {
      if k == 0 {
        assert IsChild(r.nodes, |db.nodes|, countryId, segmentLevel);
      } else {
        assert segments[k] == segments[1..][k - 1];
        HasChildFrom(r.nodes, |db1.nodes|, |db.nodes|, segments[k], countryId, segmentLevel);
      }
    }
  }

  /** One country of a sub-region: its node at level 4, then its segments
      at level 5 and units at level 6. */
  method SeedCountry(db: Db, country: string, segments: seq<string>, subregionId: int, draws: (string, string) -> seq<UnitDraw>) returns (r: Db)
    requires Consistent(db) && ValidDraws(draws)
    requires 1 <= subregionId <= |db.nodes| && db.nodes[subregionId - 1].level == 3
    ensures Consistent(r) && Extends(db, r) && |db.nodes| + 1 + |segments| <= |r.nodes|
    ensures NewNodesUnder(db.nodes, r.nodes, subregionId)
    ensures r.nodes[|db.nodes|] == Node(|db.nodes| + 1, country, Some(subregionId), 4)
    ensures SegmentsAndUnits(r.nodes, |db.nodes| + 1, |db.nodes| + 1, 5, 6)
    ensures forall i :: |db.nodes| + 1 <= i < |r.nodes| ==> r.nodes[i].level == 5 || r.nodes[i].level == 6
    ensures forall k :: 0 <= k < |segments| ==> HasChildNamed(r.nodes, |db.nodes| + 1, segments[k], |db.nodes| + 1, 5)
  {
    AddNodeConsistent(db, country, subregionId, 4);
    AddNodeAddsChild(db, country, subregionId, 4);
    var db1 := AddNode(db, country, Some(subregionId), 4);
    r := SeedSegments(db1, country, |db.nodes| + 1, 5, 6, segments, draws);
    SegmentsAndUnitsLevels(r.nodes, |db.nodes| + 1, |db.nodes| + 1, 5, 6);
    NestedUnder(db.nodes, db1.nodes, r.nodes, subregionId);
    ExtendsTrans(db, db1, r);
    assert r.nodes[|db.nodes|] == db1.nodes[|db.nodes|];
  }

  /** `for country in countries` of one sub-region. */
  method SeedCountries(db: Db, countries: seq<string>, segments: seq<string>, subregionId: int, draws: (string, string) -> seq<UnitDraw>) returns (r: Db)
    requires Consistent(db) && ValidDraws(draws)
    requires 1 <= subregionId <= |db.nodes| && db.nodes[subregionId - 1].level == 3
    ensures Consistent(r) && Extends(db, r) && NewNodesUnder(db.nodes, r.nodes, subregionId)
    ensures |db.nodes| + |countries| <= |r.nodes|
    ensures forall k :: 0 <= k < |countries| ==> HasChildNamed(r.nodes, |db.nodes|, countries[k], subregionId, 4)
    decreases |countries|
  {
    if countries == [] {
      return db;
    }
    var db1 := SeedCountry(db, countries[0], segments, subregionId, draws);
    assert db1.nodes[subregionId - 1] == db.nodes[subregionId - 1];
    r := SeedCountries(db1, countries[1..], segments, subregionId, draws);
    NewNodesUnderTrans(db.nodes, db1.nodes, r.nodes, subregionId);
    ExtendsTrans(db, db1, r);
    forall k | 0 <= k < |countries| ensures HasChildNamed(r.nodes, |db.nodes|, countries[k], subregionId, 4) {
      if k == 0 {
        assert r.nodes[|db.nodes|] == db1.nodes[|db.nodes|];
        assert IsChild(r.nodes, |db.nodes|, subregionId, 4);
      } else {
        assert countries[k] == countries[1..][k - 1];
        HasChildFrom(r.nodes, |db1.nodes|, |db.nodes|, countries[k], subregionId, 4);
      }
    }
  }

  /** One sub-region: its node at level 3, then its countries. */
  method SeedSubregion(db: Db, subregion: (string, seq<string>), segments: seq<string>, regionId: int, draws: (string, string) -> seq<UnitDraw>) returns (r: Db)
    requires Consistent(db) && ValidDraws(draws)
    requires 1 <= regionId <= |db.nodes| && db.nodes[regionId - 1].level == 2
    ensures Consistent(r) && Extends(db, r) && |db.nodes| < |r.nodes|
    ensures NewNodesUnder(db.nodes, r.nodes, regionId)
    ensures r.nodes[|db.nodes|] == Node(|db.nodes| + 1, subregion.0, Some(regionId), 3)
    ensures forall k :: 0 <= k < |subregion.1| ==> HasChildNamed(r.nodes, |db.nodes| + 1, subregion.1[k], |db.nodes| + 1, 4)
  {
    AddNodeConsistent(db, subregion.0, regionId, 3);
    AddNodeAddsChild(db, subregion.0, regionId, 3);
    var db1 := AddNode(db, subregion.0, Some(regionId), 3);
    r := SeedCountries(db1, subregion.1, segments, |db.nodes| + 1, draws);
    NestedUnder(db.nodes, db1.nodes, r.nodes, regionId);
    ExtendsTrans(db, db1, r);
    assert r.nodes[|db.nodes|] == db1.nodes[|db.nodes|];
  }

  /** `for subregion, countries in subregions.items()`. */
  method SeedSubregions(db: Db, subregions: seq<(string, seq<string>)>, segments: seq<string>, regionId: int, draws: (string, string) -> seq<UnitDraw>) returns (r: Db)
    requires Consistent(db) && ValidDraws(draws)
    requires 1 <= regionId <= |db.nodes| && db.nodes[regionId - 1].level == 2
    ensures Consistent(r) && Extends(db, r) && NewNodesUnder(db.nodes, r.nodes, regionId)
    ensures subregions != [] ==> |db.nodes| < |r.nodes| && r.nodes[|db.nodes|].parentId == Some(regionId)
    ensures forall k :: 0 <= k < |subregions| ==> HasChildNamed(r.nodes, |db.nodes|, subregions[k].0, regionId, 3)
    decreases |subregions|
  {
    if subregions == [] {
      return db;
    }
    var db1 := SeedSubregion(db, subregions[0], segments, regionId, draws);
    assert db1.nodes[regionId - 1] == db.nodes[regionId - 1];
    r := SeedSubregions(db1, subregions[1..], segments, regionId, draws);
    NewNodesUnderTrans(db.nodes, db1.nodes, r.nodes, regionId);
    ExtendsTrans(db, db1, r);
    assert r.nodes[|db.nodes|] == db1.nodes[|db.nodes|];
    forall k | 0 <= k < |subregions| ensures HasChildNamed(r.nodes, |db.nodes|, subregions[k].0, regionId, 3) {
      if k == 0 {
        assert IsChild(r.nodes, |db.nodes|, regionId, 3);
      } else {
        assert subregions[k] == subregions[1..][k - 1];
        HasChildFrom(r.nodes, |db1.nodes|, |db.nodes|, subregions[k].0, regionId, 3);
      }
    }
  }

  /** No node hangs under node `id`. */
  predicate Childless(nodes: seq<Node>, id: int) {
    forall k :: 0 <= k < |nodes| ==> nodes[k].parentId != Some(id)
  }

  /** Some level-2 node under `rootId` is called `name` and has no child. */
  predicate HasLeafRegion(nodes: seq<Node>, name: string, rootId: int) {
    exists i :: 0 <= i < |nodes| && nodes[i] == Node(i + 1, name, Some(rootId), 2) && Childless(nodes, i + 1)
  }

  /** Some level-2 node under `rootId` is called `name` and has a child. */
  predicate HasBranchRegion(nodes: seq<Node>, name: string, rootId: int) {
    exists i, j :: 0 <= i < j < |nodes| && nodes[i] == Node(i + 1, name, Some(rootId), 2) && nodes[j].parentId == Some(i + 1)
  }

  /** A node just added has no child yet: every earlier node hangs under a
      node before itself. */
  lemma AddedNodeChildless(db: Db, name: string, parentId: int, level: int)
    requires Consistent(db) && 1 <= parentId <= |db.nodes|
    ensures Childless(AddNode(db, name, Some(parentId), level).nodes, |db.nodes| + 1)
  {
    var nodes := AddNode(db, name, Some(parentId), level).nodes;
    forall k | 0 <= k < |nodes| ensures nodes[k].parentId != Some(|db.nodes| + 1) {
      if k < |db.nodes| {
        assert NodeOk(db.nodes, k);
        assert nodes[k] == db.nodes[k];
      }
    }
  }

  /** A childless region stays childless while the nodes added later hang
      under the root or under one another. */
  lemma LeafRegionStays(a: seq<Node>, c: seq<Node>, name: string, rootId: int)
    requires a <= c && NewNodesUnder(a, c, rootId) && HasLeafRegion(a, name, rootId)
    requires forall i :: 0 <= i < |a| ==> NodeOk(a, i)
    ensures HasLeafRegion(c, name, rootId)
  {
    var i :| 0 <= i < |a| && a[i] == Node(i + 1, name, Some(rootId), 2) && Childless(a, i + 1);
    assert NodeOk(a, i);
    forall k | 0 <= k < |c| ensures c[k].parentId != Some(i + 1) {
      if k < |a| {
        assert c[k] == a[k];
      }
    }
    assert c[i] == a[i];
  }

  lemma BranchRegionStays(a: seq<Node>, c: seq<Node>, name: string, rootId: int)
    requires a <= c && HasBranchRegion(a, name, rootId)
    ensures HasBranchRegion(c, name, rootId)
  {
    var i, j :| 0 <= i < j < |a| && a[i] == Node(i + 1, name, Some(rootId), 2) && a[j].parentId == Some(i + 1);
    assert c[i] == a[i] && c[j] == a[j];
  }

  /** One entry of `continents`: a level-2 node, then its sub-regions if it
      has any. */
  method SeedRegion(db: Db, region: (string, seq<(string, seq<string>)>), segments: seq<string>, rootId: int, draws: (string, string) -> seq<UnitDraw>) returns (r: Db)
    requires Consistent(db) && ValidDraws(draws)
    requires 1 <= rootId <= |db.nodes| && db.nodes[rootId - 1].level == 1
    ensures Consistent(r) && Extends(db, r) && NewNodesUnder(db.nodes, r.nodes, rootId)
    ensures |r.nodes| > |db.nodes|
    ensures r.nodes[|db.nodes|] == Node(|db.nodes| + 1, region.0, Some(rootId), 2)
    ensures region.1 == [] ==> r == AddNode(db, region.0, Some(rootId), 2) && HasLeafRegion(r.nodes, region.0, rootId)
    ensures region.1 != [] ==> HasBranchRegion(r.nodes, region.0, rootId)
  {
    AddNodeConsistent(db, region.0, rootId, 2);
    AddNodeAddsChild(db, region.0, rootId, 2);
    var db1 := AddNode(db, region.0, Some(rootId), 2);
    if region.1 == [] {
      AddedNodeChildless(db, region.0, rootId, 2);
      assert db1.nodes[|db.nodes|] == Node(|db.nodes| + 1, region.0, Some(rootId), 2);
      return db1;
    }
    r := SeedSubregions(db1, region.1, segments, |db.nodes| + 1, draws);
    NestedUnder(db.nodes, db1.nodes, r.nodes, rootId);
    ExtendsTrans(db, db1, r);
    assert r.nodes[|db.nodes|] == db1.nodes[|db.nodes|];
    assert r.nodes[|db1.nodes|].parentId == Some(|db.nodes| + 1);
  }

  method SeedRegions(db: Db, regions: seq<(string, seq<(string, seq<string>)>)>, segments: seq<string>, rootId: int, draws: (string, string) -> seq<UnitDraw>) returns (r: Db)
    requires Consistent(db) && ValidDraws(draws)
    requires 1 <= rootId <= |db.nodes| && db.nodes[rootId - 1].level == 1
    ensures Consistent(r) && Extends(db, r) && NewNodesUnder(db.nodes, r.nodes, rootId)
    ensures forall k :: 0 <= k < |regions| && regions[k].1 == [] ==> HasLeafRegion(r.nodes, regions[k].0, rootId)
    ensures forall k :: 0 <= k < |regions| && regions[k].1 != [] ==> HasBranchRegion(r.nodes, regions[k].0, rootId)
    decreases |regions|
  {
    if regions == [] {
      return db;
    }
    var db1 := SeedRegion(db, regions[0], segments, rootId, draws);
    assert db1.nodes[rootId - 1] == db.nodes[rootId - 1];
    r := SeedRegions(db1, regions[1..], segments, rootId, draws);
    NewNodesUnderTrans(db.nodes, db1.nodes, r.nodes, rootId);
    ExtendsTrans(db, db1, r);
    forall k | 0 <= k < |regions|
      ensures regions[k].1 == [] ==> HasLeafRegion(r.nodes, regions[k].0, rootId)
      ensures regions[k].1 != [] ==> HasBranchRegion(r.nodes, regions[k].0, rootId)
    {
      if k == 0 {
        if regions[0].1 == [] {
          LeafRegionStays(db1.nodes, r.nodes, regions[0].0, rootId);
        } else {
          BranchRegionStays(db1.nodes, r.nodes, regions[0].0, rootId);
        }
      } else {
        assert regions[k] == regions[1..][k - 1];
      }
    }
  }

  /** One of Isle of Man and Jersey in the second loop: a level-2 node under
      the root, then segments at level 3 and units at level 4. */
  method SeedExtraCountry(db: Db, country: string, segments: seq<string>, rootId: int, draws: (string, string) -> seq<UnitDraw>) returns (r: Db)
    requires Consistent(db) && ValidDraws(draws)
    requires 1 <= rootId <= |db.nodes| && db.nodes[rootId - 1].level == 1
    ensures Consistent(r) && Extends(db, r) && NewNodesUnder(db.nodes, r.nodes, rootId)
    ensures |r.nodes| >= |db.nodes| + 1 + |segments|
    ensures r.nodes[|db.nodes|] == Node(|db.nodes| + 1, country, Some(rootId), 2)
    ensures segments != [] ==> HasBranchRegion(r.nodes, country, rootId)
    ensures SegmentsAndUnits(r.nodes, |db.nodes| + 1, |db.nodes| + 1, 3, 4)
    ensures forall i :: |db.nodes| + 1 <= i < |r.nodes| ==> r.nodes[i].level == 3 || r.nodes[i].level == 4
    ensures forall k :: 0 <= k < |segments| ==> HasChildNamed(r.nodes, |db.nodes| + 1, segments[k], |db.nodes| + 1, 3)
  {
    AddNodeConsistent(db, country, rootId, 2);
    AddNodeAddsChild(db, country, rootId, 2);
    var db1 := AddNode(db, country, Some(rootId), 2);
    r := SeedSegments(db1, country, |db.nodes| + 1, 3, 4, segments, draws);
    SegmentsAndUnitsLevels(r.nodes, |db.nodes| + 1, |db.nodes| + 1, 3, 4);
    NestedUnder(db.nodes, db1.nodes, r.nodes, rootId);
    ExtendsTrans(db, db1, r);
    assert r.nodes[|db.nodes|] == db1.nodes[|db.nodes|];
    if segments != [] {
      assert r.nodes[|db1.nodes|].parentId == Some(|db.nodes| + 1);
    }
  }

  method SeedExtraCountries(db: Db, countries: seq<string>, segments: seq<string>, rootId: int, draws: (string, string) -> seq<UnitDraw>) returns (r: Db)
    requires Consistent(db) && ValidDraws(draws)
    requires 1 <= rootId <= |db.nodes| && db.nodes[rootId - 1].level == 1
    ensures Consistent(r) && Extends(db, r) && NewNodesUnder(db.nodes, r.nodes, rootId)
    ensures segments != [] ==> forall k :: 0 <= k < |countries| ==> HasBranchRegion(r.nodes, countries[k], rootId)
    ensures forall k :: 0 <= k < |countries| ==> HasChildNamed(r.nodes, |db.nodes|, countries[k], rootId, 2)
    decreases |countries|
  {
    if countries == [] {
      return db;
    }
    var db1 := SeedExtraCountry(db, countries[0], segments, rootId, draws);
    assert db1.nodes[rootId - 1] == db.nodes[rootId - 1];
    r := SeedExtraCountries(db1, countries[1..], segments, rootId, draws);
    NewNodesUnderTrans(db.nodes, db1.nodes, r.nodes, rootId);
    ExtendsTrans(db, db1, r);
    forall k | 0 <= k < |countries| ensures HasChildNamed(r.nodes, |db.nodes|, countries[k], rootId, 2) {
      if k == 0 {
        assert r.nodes[|db.nodes|] == db1.nodes[|db.nodes|];
        assert IsChild(r.nodes, |db.nodes|, rootId, 2);
      } else {
        assert countries[k] == countries[1..][k - 1];
        HasChildFrom(r.nodes, |db1.nodes|, |db.nodes|, countries[k], rootId, 2);
      }
    }
    if segments != [] {
      forall k | 0 <= k < |countries| ensures HasBranchRegion(r.nodes, countries[k], rootId) {
        if k == 0 {
          BranchRegionStays(db1.nodes, r.nodes, countries[0], rootId);
        } else {
          assert countries[k] == countries[1..][k - 1];
        }
      }
    }
  }

  /** The database after the root node is added to empty tables. */
  function Root(): (db: Db)
    ensures Consistent(db)
    ensures db.nodes == [Node(1, RootName, None, 1)] && db.users == [] && db.risks == [] && db.actions == []
  {
    var db := AddNode(Db([], [], [], []), RootName, None, 1);
    assert NodeOk(db.nodes, 0);
    db
  }

  /** `seed()` after the tables are emptied: the root, the continents, then
      Isle of Man and Jersey a second time. */
  method Seed(draws: (string, string) -> seq<UnitDraw>) returns (r: Db)
    requires ValidDraws(draws)
    ensures Consistent(r)
    ensures |r.nodes| >= 1 && r.nodes[0] == Node(1, RootName, None, 1)
    ensures forall k :: 0 <= k < |Continents| && Continents[k].1 == [] ==> HasLeafRegion(r.nodes, Continents[k].0, 1)
    ensures forall k :: 0 <= k < |Continents| && Continents[k].1 != [] ==> HasBranchRegion(r.nodes, Continents[k].0, 1)
    ensures forall k :: 0 <= k < |ExtraCountries| ==> HasBranchRegion(r.nodes, ExtraCountries[k], 1)
    ensures HasLeafRegion(r.nodes, "Isle of Man", 1) && HasBranchRegion(r.nodes, "Isle of Man", 1)
    ensures HasLeafRegion(r.nodes, "Jersey", 1) && HasBranchRegion(r.nodes, "Jersey", 1)
    ensures RankedForest(r.nodes, IdRank(|r.nodes|))
    ensures forall i, j :: 0 <= i < j < |r.users| ==> r.users[i].email != r.users[j].email
  {
    var db0 := Root();
    var db1 := SeedRegions(db0, Continents, Segments, 1, draws);
    r := SeedExtraCountries(db1, ExtraCountries, Segments, 1, draws);
    forall k | 0 <= k < |Continents| && Continents[k].1 == []
      ensures HasLeafRegion(r.nodes, Continents[k].0, 1)
    {
      LeafRegionStays(db1.nodes, r.nodes, Continents[k].0, 1);
    }
    forall k | 0 <= k < |Continents| && Continents[k].1 != []
      ensures HasBranchRegion(r.nodes, Continents[k].0, 1)
    {
      BranchRegionStays(db1.nodes, r.nodes, Continents[k].0, 1);
    }
    assert Continents[1] == ("Isle of Man", []) && Continents[2] == ("Jersey", []);
    assert ExtraCountries[0] == "Isle of Man" && ExtraCountries[1] == "Jersey";
    SeedForestRanked(r);
    SeededEmailsUnique(r);
  }

  // ---------------------------------------------------------------------
  // What the seeded tables guarantee to the web application

  /** Distance from the last id: strictly larger for a parent than for any
      of its children, since every node hangs under an earlier one. */
  function IdRank(count: nat): int -> nat {
    x => if 0 <= x <= count then count - x else 0
  }

  /** The seeded hierarchy has no parent cycle, so the scope and tree
      functions of the web application terminate on it. */
  lemma SeedForestRanked(db: Db)
    requires Consistent(db)
    ensures RankedForest(db.nodes, IdRank(|db.nodes|))
  {
    forall n | n in db.nodes && n.parentId.Some?
      ensures IdRank(|db.nodes|)(n.id) < IdRank(|db.nodes|)(n.parentId.value)
    {
      var i :| 0 <= i < |db.nodes| && db.nodes[i] == n;
      assert NodeOk(db.nodes, i);
    }
  }

  /** No two seeded users share an e-mail address: the part before the
      '@' is the user name, and user names are unique. */
  lemma SeededEmailsUnique(db: Db)
    requires Consistent(db)
    ensures forall i, j :: 0 <= i < j < |db.users| ==> db.users[i].email != db.users[j].email
  {
    forall i, j | 0 <= i < j < |db.users| ensures db.users[i].email != db.users[j].email {
      assert UserOk(db, i) && UserOk(db, j);
      assert NameOf(db.users, i) != NameOf(db.users, j);
    }
  }
}
