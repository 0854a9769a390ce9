/** Bootstrap's rewrite of `.env.local`: the roles' keypairs are resolved, and the whole file is rendered again. */
module Bootstrap {
  import opened Results
  import opened Text
  import opened EnvFile

  datatype Role = Role(id: string, purpose: string)
  {
    function PublicKeyName(): string { id + "_PUBLIC_KEY" }

    function SecretKeyName(): string { id + "_SECRET_KEY" }
  }

  const ROLES: seq<Role> := [
    Role("ADMIN", "registry admin \U{2014} register_issuer " + "/ deactivate_issuer"),
    Role("ISSUER", "signs credentials and anchors their hashes"),
    Role("AGENT", "subject of the demo credential")
  ]

  datatype Keypair = Keypair(publicKey: string, secret: string)

  datatype Origin = Reused | Generated

  datatype ResolvedRole = ResolvedRole(role: Role, keypair: Keypair, origin: Origin)

  datatype ConfigError = PublicKeyWithoutSecret(role: Role) | InvalidSecret(role: Role) | KeyMismatch(role: Role)

  // ---------------------------------------------------------------- keys

  /** The account each valid secret seed names; `None` for a text that is no seed. */
  type Accounts = string -> Option<string>

  predicate CleanText(s: string) {
    s != "" && IsTrimmed(s) && OneLine(s)
  }

  /** Seeds and addresses are single words. */
  ghost predicate CleanAccounts(accounts: Accounts) {
    forall secret :: accounts(secret).Some? ==> CleanText(secret) && CleanText(accounts(secret).value)
  }

  predicate IsKeypair(accounts: Accounts, k: Keypair) {
    accounts(k.secret) == Some(k.publicKey)
  }

  // ---------------------------------------------------------------- resolving

  function StoredText(env: Entries, key: string): string {
    match Get(env, key) case None => "" case Some(v) => Trim(v)
  }

  /** Reuses the stored secret when there is one, otherwise takes the freshly minted keypair. */
  function ResolveKeypair(role: Role, env: Entries, accounts: Accounts, minted: Keypair): Result<ResolvedRole, ConfigError> {
    var secret := StoredText(env, role.SecretKeyName());
    var storedPublic := StoredText(env, role.PublicKeyName());
    if secret == "" then
      if storedPublic != "" then Err(PublicKeyWithoutSecret(role)) else Ok(ResolvedRole(role, minted, Generated))
    else match accounts(secret)
      case None => Err(InvalidSecret(role))
      case Some(publicKey) =>
        if storedPublic != "" && storedPublic != publicKey then Err(KeyMismatch(role))
        else Ok(ResolvedRole(role, Keypair(publicKey, secret), Reused))
  }

  /** Every role in order, or the first refusal. */
  function ResolveAll(roles: seq<Role>, env: Entries, accounts: Accounts, minted: seq<Keypair>): (r: Result<seq<ResolvedRole>, ConfigError>)
    requires |minted| == |roles|
    ensures r.Ok? ==> |r.value| == |roles| && forall i | 0 <= i < |roles| :: ResolveKeypair(roles[i], env, accounts, minted[i]) == Ok(r.value[i])
    ensures r.Err? ==> exists i | 0 <= i < |roles| ::
              && ResolveKeypair(roles[i], env, accounts, minted[i]) == Err(r.error)
              && forall j | 0 <= j < i :: ResolveKeypair(roles[j], env, accounts, minted[j]).Ok?
  {
    if roles == [] then Ok([])
    else match ResolveKeypair(roles[0], env, accounts, minted[0])
      case Err(e) => Err(e)
      case Ok(first) =>
        match ResolveAll(roles[1..], env, accounts, minted[1..])
        case Err(e) => Err(e)
        case Ok(rest) => Ok([first] + rest)
  }

  /** The text a key holds, trimmed; none is empty. */
  predicate Holds(env: Entries, key: string, text: string) {
    match Get(env, key) case None => text == "" case Some(v) => text == Trim(v)
  }

  /** On any file: a stored secret that is valid is the one kept, with its public key stored or not; with neither stored a
      key is minted; and each refusal is given exactly for its reason. */
  lemma {:induction false} ResolvesExactlyWhen(
      role: Role, env: Entries, accounts: Accounts, minted: Keypair, secret: string, public: string)
    requires Holds(env, role.id + "_SECRET_KEY", secret) && Holds(env, role.id + "_PUBLIC_KEY", public)
    ensures var r := ResolveKeypair(role, env, accounts, minted);
            && (r.Ok? && r.value.origin.Reused? <==>
                  secret != "" && accounts(secret).Some? && (public == "" || accounts(secret) == Some(public)))
            && (r.Ok? && r.value.origin.Generated? <==> secret == "" && public == "")
            && (r.Ok? ==> r.value.role == role)
            && (r.Ok? && r.value.origin.Reused? ==> r.value.keypair == Keypair(accounts(secret).value, secret))
            && (r.Ok? && r.value.origin.Generated? ==> r.value.keypair == minted)
            && (r == Err(PublicKeyWithoutSecret(role)) <==> secret == "" && public != "")
            && (r == Err(InvalidSecret(role)) <==> secret != "" && accounts(secret).None?)
            && (r == Err(KeyMismatch(role)) <==>
                  secret != "" && accounts(secret).Some? && public != "" && accounts(secret) != Some(public))
  {
  }

  // ---------------------------------------------------------------- rendering

  const REGISTRY_KEY := "AGENT_REGISTRY_CONTRACT_ID"

  /** The network settings bootstrap writes, always the same. */
  const NETWORK: Entries := [
    ("STELLAR_NETWORK", "testnet"),
    ("STELLAR_RPC_URL", "https://soroban-testnet.stellar.org"),
    ("STELLAR_HORIZON_URL", "https://horizon-testnet.stellar.org"),
    ("STELLAR_NETWORK_PASSPHRASE", "Test SDF Network ; September 2015"),
    ("STELLAR_FRIENDBOT_URL", "https://friendbot.stellar.org")
  ]

  /** The keys bootstrap owns and rewrites, in the order it writes them. */
  const MANAGED_KEYS: seq<string> := [
    "STELLAR_NETWORK", "STELLAR_RPC_URL", "STELLAR_HORIZON_URL", "STELLAR_NETWORK_PASSPHRASE", "STELLAR_FRIENDBOT_URL",
    "ADMIN_PUBLIC_KEY", "ADMIN_SECRET_KEY", "ISSUER_PUBLIC_KEY", "ISSUER_SECRET_KEY", "AGENT_PUBLIC_KEY", "AGENT_SECRET_KEY",
    REGISTRY_KEY
  ]

  predicate IsManaged(key: string) {
    key in MANAGED_KEYS
  }

  /** The entries bootstrap does not own, in their order. */
  function Carried(e: Entries): Entries {
    if e == [] then []
    else (if IsManaged(e[0].0) then [] else [e[0]]) + Carried(e[1..])
  }

  function RolePairs(resolved: seq<ResolvedRole>): Entries {
    if resolved == [] then []
    else
      var r := resolved[0];
      [(r.role.PublicKeyName(), r.keypair.publicKey), (r.role.SecretKeyName(), r.keypair.secret)] + RolePairs(resolved[1..])
  }

  function RegistryPair(existing: Entries): (string, string) {
    (REGISTRY_KEY, match Get(existing, REGISTRY_KEY) case None => "" case Some(v) => v)
  }

  /** What the rendered file sets, in order. */
  function Written(resolved: seq<ResolvedRole>, existing: Entries): Entries {
    NETWORK + RolePairs(resolved) + [RegistryPair(existing)] + Carried(existing)
  }

  /** A line of the rendered file: a blank or a comment, or a setting. */
  datatype Item = Note(text: string) | Setting(key: string, value: string)
  {
    function Line(): string {
      match this case Note(text) => text case Setting(key, value) => FormatEnvLine(key, value)
    }

    predicate Clean() {
      match this
      case Note(text) => NoNewline(text) && (text == "" || text[0] == '#')
      case Setting(key, value) => WellFormedKey(key) && OneLine(value)
    }
  }

  function Settings(e: Entries): seq<Item> {
    seq(|e|, i requires 0 <= i < |e| => Setting(e[i].0, e[i].1))
  }

  function LinesOf(items: seq<Item>): seq<string> {
    seq(|items|, i requires 0 <= i < |items| => items[i].Line())
  }

  const SECRETS_NOTE := "# Contains secret seeds. Never commit " + "this file \U{2014} .gitignore already covers it."

  const REUSE_NOTE := "# Re-running bootstrap reuses " + "every key below."

  const CARRIED_NOTE := "# Carried over from the previous " + ".env.local \U{2014} bootstrap does not own these."

  function Header(now: string): seq<Item> {
    [Note("# Written by `pnpm run bootstrap` at " + now + "."), Note(SECRETS_NOTE), Note(REUSE_NOTE), Note("")]
  }

  function RoleItems(resolved: seq<ResolvedRole>): seq<Item> {
    if resolved == [] then []
    else
      var r := resolved[0];
      [Note(""), Note("# " + r.role.purpose),
       Setting(r.role.PublicKeyName(), r.keypair.publicKey),
       Setting(r.role.SecretKeyName(), r.keypair.secret)] + RoleItems(resolved[1..])
  }

  function RegistryItems(existing: Entries): seq<Item> {
    [Note(""), Note("# Written by `pnpm run deploy:registry`."), Setting(RegistryPair(existing).0, RegistryPair(existing).1)]
  }

  function CarriedItems(existing: Entries): seq<Item> {
    if Carried(existing) == [] then []
    else [Note(""), Note(CARRIED_NOTE)] + Settings(Carried(existing))
  }

  function Layout(resolved: seq<ResolvedRole>, existing: Entries, now: string): seq<Item> {
    Header(now) + Settings(NETWORK) + RoleItems(resolved) + RegistryItems(existing) + CarriedItems(existing)
  }

  function Rendered(resolved: seq<ResolvedRole>, existing: Entries, now: string): string {
    JoinLines(LinesOf(Layout(resolved, existing, now))) + "\n"
  }

  lemma {:induction false} LinesOfConcat(a: seq<Item>, b: seq<Item>)
    ensures LinesOf(a + b) == LinesOf(a) + LinesOf(b)
  {
  }

  method PushSettings(lines: seq<string>, e: Entries) returns (longer: seq<string>)
    ensures longer == lines + LinesOf(Settings(e))
  {
    longer := lines;
    for i := 0 to |e|
      invariant longer == lines + LinesOf(Settings(e))[..i]
    {
      longer := longer + [FormatEnvLine(e[i].0, e[i].1)];
    }
  }

  /** The four lines of a role. */
  function RoleLines(r: ResolvedRole): seq<string> {
    ["", "# " + r.role.purpose, FormatEnvLine(r.role.PublicKeyName(), r.keypair.publicKey),
     FormatEnvLine(r.role.SecretKeyName(), r.keypair.secret)]
  }

  lemma {:induction false} RoleLinesFirst(resolved: seq<ResolvedRole>, i: nat)
    requires i < |resolved|
    ensures LinesOf(RoleItems(resolved[i..])) == RoleLines(resolved[i]) + LinesOf(RoleItems(resolved[i + 1..]))
  {
    assert resolved[i..][1..] == resolved[i + 1..];
  }

  method PushRoles(lines: seq<string>, resolved: seq<ResolvedRole>) returns (longer: seq<string>)
    ensures longer == lines + LinesOf(RoleItems(resolved))
  {
    longer := lines;
    for i := 0 to |resolved|
      invariant longer + LinesOf(RoleItems(resolved[i..])) == lines + LinesOf(RoleItems(resolved))
    {
      var r := resolved[i];
      ghost var before := longer;
      longer := longer + ["", "# " + r.role.purpose];
      longer := longer + [FormatEnvLine(r.role.PublicKeyName(), r.keypair.publicKey)];
      longer := longer + [FormatEnvLine(r.role.SecretKeyName(), r.keypair.secret)];
      assert longer == before + RoleLines(r);
      RoleLinesFirst(resolved, i);
    }
    assert resolved[|resolved|..] == [];
  }

  method PushRegistry(lines: seq<string>, existing: Entries) returns (longer: seq<string>)
    ensures longer == lines + LinesOf(RegistryItems(existing))
  {
    longer := lines + ["", "# Written by `pnpm run deploy:registry`."];
    longer := longer + [FormatEnvLine(REGISTRY_KEY, match Get(existing, REGISTRY_KEY) case None => "" case Some(v) => v)];
  }

  method PushCarried(lines: seq<string>, existing: Entries) returns (longer: seq<string>)
    ensures longer == lines + LinesOf(CarriedItems(existing))
  {
    longer := lines;
    var carried := Carried(existing);
    if |carried| > 0 {
      longer := longer + ["", CARRIED_NOTE];
      longer := PushSettings(longer, carried);
      LinesOfConcat([Note(""), Note(CARRIED_NOTE)], Settings(carried));
      assert LinesOf([Note(""), Note(CARRIED_NOTE)]) == ["", CARRIED_NOTE];
    }
  }

  method HeaderLines(now: string) returns (lines: seq<string>)
    ensures lines == LinesOf(Header(now))
  {
    return ["# Written by `pnpm run bootstrap` at " + now + ".", SECRETS_NOTE, REUSE_NOTE, ""];
  }

  lemma {:induction false} LayoutLines(resolved: seq<ResolvedRole>, existing: Entries, now: string)
    ensures LinesOf(Layout(resolved, existing, now)) ==
            LinesOf(Header(now)) + LinesOf(Settings(NETWORK)) + LinesOf(RoleItems(resolved))
            + LinesOf(RegistryItems(existing)) + LinesOf(CarriedItems(existing))
  {
    LinesOfConcat(Header(now), Settings(NETWORK));
    LinesOfConcat(Header(now) + Settings(NETWORK), RoleItems(resolved));
    LinesOfConcat(Header(now) + Settings(NETWORK) + RoleItems(resolved), RegistryItems(existing));
    LinesOfConcat(Header(now) + Settings(NETWORK) + RoleItems(resolved) + RegistryItems(existing), CarriedItems(existing));
  }

  method RenderEnvLocal(resolved: seq<ResolvedRole>, existing: Entries, now: string) returns (text: string)
    ensures text == Rendered(resolved, existing, now)
  {
    var lines := HeaderLines(now);
    lines := PushSettings(lines, NETWORK);
    lines := PushRoles(lines, resolved);
    lines := PushRegistry(lines, existing);
    lines := PushCarried(lines, existing);
    LayoutLines(resolved, existing, now);
    return JoinLines(lines) + "\n";
  }

  // ---------------------------------------------------------------- reading the rendered file back

  /** What the settings of a layout set, in order. */
  function PairsOf(items: seq<Item>): Entries {
    if items == [] then []
    else (match items[0] case Note(_) => [] case Setting(key, value) => [(key, value)]) + PairsOf(items[1..])
  }

  lemma {:induction false} PairsOfConcat(a: seq<Item>, b: seq<Item>)
    ensures PairsOf(a + b) == PairsOf(a) + PairsOf(b)
  {
    if a == [] {
      assert a + b == b;
    } else {
      assert (a + b)[1..] == a[1..] + b;
      PairsOfConcat(a[1..], b);
    }
  }

  lemma {:induction false} PairsOfNotes(a: string, b: string, rest: seq<Item>)
    ensures PairsOf([Note(a), Note(b)] + rest) == PairsOf(rest)
  {
    var items := [Note(a), Note(b)] + rest;
    assert items[1..] == [Note(b)] + rest;
    assert ([Note(b)] + rest)[1..] == rest;
  }

  lemma {:induction false} PairsOfSetting(key: string, value: string, rest: seq<Item>)
    ensures PairsOf([Setting(key, value)] + rest) == [(key, value)] + PairsOf(rest)
  {
    assert ([Setting(key, value)] + rest)[1..] == rest;
  }

  lemma {:induction false} PairsOfSettings(e: Entries)
    ensures PairsOf(Settings(e)) == e
  {
    if e != [] {
      assert Settings(e)[1..] == Settings(e[1..]);
      PairsOfSettings(e[1..]);
    }
  }

  lemma {:induction false} PairsOfRoles(resolved: seq<ResolvedRole>)
    ensures PairsOf(RoleItems(resolved)) == RolePairs(resolved)
  {
    if resolved != [] {
      var r, rest := resolved[0], RoleItems(resolved[1..]);
      var secret := [Setting(r.role.SecretKeyName(), r.keypair.secret)] + rest;
      var public := [Setting(r.role.PublicKeyName(), r.keypair.publicKey)] + secret;
      PairsOfSetting(r.role.SecretKeyName(), r.keypair.secret, rest);
      PairsOfSetting(r.role.PublicKeyName(), r.keypair.publicKey, secret);
      PairsOfNotes("", "# " + r.role.purpose, public);
      assert RoleItems(resolved) == [Note(""), Note("# " + r.role.purpose)] + public;
      PairsOfRoles(resolved[1..]);
    }
  }

  lemma {:induction false} HeaderPairs(now: string)
    ensures PairsOf(Header(now)) == []
  {
    var h := Header(now);
    PairsOfNotes(h[0].text, h[1].text, [h[2], h[3]]);
    PairsOfNotes(h[2].text, h[3].text, []);
    assert [h[2], h[3]] == [Note(h[2].text), Note(h[3].text)] + [];
    assert h == [Note(h[0].text), Note(h[1].text)] + [h[2], h[3]];
  }

  lemma {:induction false} RegistryPairs(existing: Entries)
    ensures PairsOf(RegistryItems(existing)) == [RegistryPair(existing)]
  {
    var g, pair := RegistryItems(existing), RegistryPair(existing);
    PairsOfSetting(pair.0, pair.1, []);
    PairsOfNotes(g[0].text, g[1].text, [Setting(pair.0, pair.1)] + []);
    assert g == [Note(g[0].text), Note(g[1].text)] + ([Setting(pair.0, pair.1)] + []);
  }

  lemma {:induction false} CarriedPairs(existing: Entries)
    ensures PairsOf(CarriedItems(existing)) == Carried(existing)
  {
    if Carried(existing) != [] {
      var c := CarriedItems(existing);
      PairsOfNotes(c[0].text, c[1].text, Settings(Carried(existing)));
      PairsOfSettings(Carried(existing));
    }
  }

  lemma {:induction false} PairsOfLayout(resolved: seq<ResolvedRole>, existing: Entries, now: string)
    ensures PairsOf(Layout(resolved, existing, now)) == Written(resolved, existing)
  {
    var h, n, r, g, c := Header(now), Settings(NETWORK), RoleItems(resolved), RegistryItems(existing), CarriedItems(existing);
    HeaderPairs(now);
    PairsOfSettings(NETWORK);
    PairsOfRoles(resolved);
    RegistryPairs(existing);
    CarriedPairs(existing);
    PairsOfConcat(h, n);
    PairsOfConcat(h + n, r);
    PairsOfConcat(h + n + r, g);
    PairsOfConcat(h + n + r + g, c);
    assert [] + NETWORK == NETWORK;
  }

  function SetAll(e: Entries, pairs: Entries): Entries
    decreases |pairs|
  {
    if pairs == [] then e else SetAll(Set(e, pairs[0].0, pairs[0].1), pairs[1..])
  }

  predicate CleanItems(items: seq<Item>) {
    forall i | 0 <= i < |items| :: items[i].Clean()
  }

  /** A clean layout is read back as its settings, set in order. */
  lemma {:induction false} ParseSetsPairs(e: Entries, items: seq<Item>)
    requires CleanItems(items)
    ensures ParseFrom(e, LinesOf(items)) == SetAll(e, PairsOf(items))
    decreases |items|
  {
    if items != [] {
      assert LinesOf(items)[1..] == LinesOf(items[1..]);
      match items[0] {
        case Note(text) =>
          assert items[0].Clean();
          CommentSetsNothing(text);
          assert PairsOf(items) == PairsOf(items[1..]);
          ParseSetsPairs(e, items[1..]);
        case Setting(key, value) =>
          assert items[0].Clean();
          WrittenLineMatches(key, value);
          assert PairsOf(items) == [(key, value)] + PairsOf(items[1..]);
          ParseSetsPairs(Set(e, key, value), items[1..]);
      }
    }
  }

  predicate Distinct(e: Entries) {
    forall i, j | 0 <= i < j < |e| :: e[i].0 != e[j].0
  }

  lemma {:induction false} SetNew(e: Entries, key: string, value: string)
    requires forall i | 0 <= i < |e| :: e[i].0 != key
    ensures Set(e, key, value) == e + [(key, value)]
  {
    if e != [] {
      SetNew(e[1..], key, value);
    }
  }

  lemma {:induction false} SetAllDistinct(e: Entries, pairs: Entries)
    requires Distinct(e + pairs)
    ensures SetAll(e, pairs) == e + pairs
    decreases |pairs|
  {
    if pairs != [] {
      forall i | 0 <= i < |e| ensures e[i].0 != pairs[0].0 {
        assert (e + pairs)[i].0 != (e + pairs)[|e|].0;
      }
      SetNew(e, pairs[0].0, pairs[0].1);
      assert e + [pairs[0]] + pairs[1..] == e + pairs;
      SetAllDistinct(e + [pairs[0]], pairs[1..]);
    }
  }

  lemma {:induction false} CommentSetsNothing(line: string)
    requires line == "" || line[0] == '#'
    ensures KeyValue(line).None?
  {
    if line != "" {
      assert SkipSpace(line) == line;
    }
  }

  lemma {:induction false} CleanItemLines(items: seq<Item>)
    requires CleanItems(items)
    ensures forall i | 0 <= i < |items| :: NoNewline(LinesOf(items)[i])
  {
    forall i | 0 <= i < |items| ensures NoNewline(LinesOf(items)[i]) {
      assert items[i].Clean();
      if items[i].Setting? {
        WrittenLineIsOneLine(items[i].key, items[i].value);
      }
    }
  }

  /** A rendered text of clean items is read back as its settings, in order, when no key comes twice. */
  lemma {:induction false} ItemsReadBack(items: seq<Item>)
    requires items != [] && CleanItems(items) && Distinct(PairsOf(items))
    ensures Parsed(JoinLines(LinesOf(items)) + "\n") == PairsOf(items)
  {
    var lines := LinesOf(items);
    CleanItemLines(items);
    SplitJoin(lines);
    SplitAtNewline(JoinLines(lines), "");
    assert JoinLines(lines) + "\n" + "" == JoinLines(lines) + "\n";
    ParseConcat([], lines, [""]);
    EmptyLineSetsNothing(ParseFrom([], lines));
    ParseSetsPairs([], items);
    assert [] + PairsOf(items) == PairsOf(items);
    SetAllDistinct([], PairsOf(items));
  }

  // ---------------------------------------------------------------- the rewrite

  /** The resolved roles are the managed ones, each with a keypair made of clean text. */
  predicate ResolvedForRoles(resolved: seq<ResolvedRole>) {
    && |resolved| == |ROLES|
    && forall i | 0 <= i < |ROLES| ::
      resolved[i].role == ROLES[i] && CleanText(resolved[i].keypair.publicKey) && CleanText(resolved[i].keypair.secret)
  }

  lemma {:induction false} AdminNames()
    ensures ROLES[0].PublicKeyName() == MANAGED_KEYS[5] && ROLES[0].SecretKeyName() == MANAGED_KEYS[6]
  {
  }

  lemma {:induction false} IssuerNames()
    ensures ROLES[1].PublicKeyName() == MANAGED_KEYS[7] && ROLES[1].SecretKeyName() == MANAGED_KEYS[8]
  {
  }

  lemma {:induction false} AgentNames()
    ensures ROLES[2].PublicKeyName() == MANAGED_KEYS[9] && ROLES[2].SecretKeyName() == MANAGED_KEYS[10]
  {
  }

  lemma {:induction false} RoleNames()
    ensures ROLES[0].PublicKeyName() == MANAGED_KEYS[5] && ROLES[0].SecretKeyName() == MANAGED_KEYS[6]
    ensures ROLES[1].PublicKeyName() == MANAGED_KEYS[7] && ROLES[1].SecretKeyName() == MANAGED_KEYS[8]
    ensures ROLES[2].PublicKeyName() == MANAGED_KEYS[9] && ROLES[2].SecretKeyName() == MANAGED_KEYS[10]
  {
    AdminNames();
    IssuerNames();
    AgentNames();
  }

  lemma {:induction false} RolePairsOfRoles(resolved: seq<ResolvedRole>)
    requires ResolvedForRoles(resolved)
    ensures |RolePairs(resolved)| == 6
    ensures forall i | 0 <= i < 3 ::
              && RolePairs(resolved)[2 * i] == (MANAGED_KEYS[5 + 2 * i], resolved[i].keypair.publicKey)
              && RolePairs(resolved)[2 * i + 1] == (MANAGED_KEYS[6 + 2 * i], resolved[i].keypair.secret)
  {
    RoleNames();
    var one, two, three := resolved[1..], resolved[1..][1..], resolved[1..][1..][1..];
    assert one[0] == resolved[1] && two[0] == resolved[2] && three == [];
    assert RolePairs(two) == [(MANAGED_KEYS[9], resolved[2].keypair.publicKey), (MANAGED_KEYS[10], resolved[2].keypair.secret)];
    assert RolePairs(one) == [(MANAGED_KEYS[7], resolved[1].keypair.publicKey), (MANAGED_KEYS[8], resolved[1].keypair.secret)] + RolePairs(two);
  }

  /** The pairs bootstrap owns, as written: one per managed key, in order. */
  function ManagedPairs(resolved: seq<ResolvedRole>, existing: Entries): Entries {
    NETWORK + RolePairs(resolved) + [RegistryPair(existing)]
  }

  lemma {:induction false} ManagedPairNames(resolved: seq<ResolvedRole>, existing: Entries)
    requires ResolvedForRoles(resolved)
    ensures |ManagedPairs(resolved, existing)| == |MANAGED_KEYS|
    ensures forall i | 0 <= i < |MANAGED_KEYS| :: ManagedPairs(resolved, existing)[i].0 == MANAGED_KEYS[i]
  {
    RolePairsOfRoles(resolved);
    var pairs := ManagedPairs(resolved, existing);
    var r := RolePairs(resolved);
    assert pairs[5] == r[0] && pairs[6] == r[1] && pairs[7] == r[2] && pairs[8] == r[3] && pairs[9] == r[4] && pairs[10] == r[5];
    assert r[0].0 == MANAGED_KEYS[5] by { assert r[2 * 0] == r[0]; }
    assert r[1].0 == MANAGED_KEYS[6] by { assert r[2 * 0 + 1] == r[1]; }
    assert r[2].0 == MANAGED_KEYS[7] by { assert r[2 * 1] == r[2]; }
    assert r[3].0 == MANAGED_KEYS[8] by { assert r[2 * 1 + 1] == r[3]; }
    assert r[4].0 == MANAGED_KEYS[9] by { assert r[2 * 2] == r[4]; }
    assert r[5].0 == MANAGED_KEYS[10] by { assert r[2 * 2 + 1] == r[5]; }
  }

  /** The twelve names differ from one another. */
  lemma {:induction false} ManagedKeysDiffer(i: nat, j: nat)
    requires i < j < |MANAGED_KEYS|
    ensures MANAGED_KEYS[i] != MANAGED_KEYS[j]
  {
    var a, b := MANAGED_KEYS[i], MANAGED_KEYS[j];
    assert |a| != |b| || a[0] != b[0] || a[1] != b[1] || a[8] != b[8];
  }

  lemma {:induction false} ManagedKeysDifferAll()
    ensures forall i, j | 0 <= i < j < |MANAGED_KEYS| :: MANAGED_KEYS[i] != MANAGED_KEYS[j]
  {
    forall i, j | 0 <= i < j < |MANAGED_KEYS| ensures MANAGED_KEYS[i] != MANAGED_KEYS[j] {
      ManagedKeysDiffer(i, j);
    }
  }

  // ---------------------------------------------------------------- lookups in concatenations

  lemma {:induction false} GetConcat(a: Entries, b: Entries, key: string)
    ensures Get(a + b, key) == if Get(a, key).Some? then Get(a, key) else Get(b, key)
  {
    if a == [] {
      assert a + b == b;
    } else if a[0].0 != key {
      assert (a + b)[1..] == a[1..] + b;
      GetConcat(a[1..], b, key);
    }
  }

  lemma {:induction false} GetAt(e: Entries, i: nat)
    requires Distinct(e) && i < |e|
    ensures Get(e, e[i].0) == Some(e[i].1)
  {
    if i > 0 {
      GetAt(e[1..], i - 1);
    }
  }

  lemma {:induction false} GetAbsent(e: Entries, key: string)
    requires forall i | 0 <= i < |e| :: e[i].0 != key
    ensures Get(e, key) == None
  {
    if e != [] {
      GetAbsent(e[1..], key);
    }
  }

  lemma {:induction false} CarriedConcat(a: Entries, b: Entries)
    ensures Carried(a + b) == Carried(a) + Carried(b)
  {
    if a == [] {
      assert a + b == b;
    } else {
      assert (a + b)[1..] == a[1..] + b;
      CarriedConcat(a[1..], b);
    }
  }

  lemma {:induction false} CarriedOfManaged(e: Entries)
    requires forall i | 0 <= i < |e| :: IsManaged(e[i].0)
    ensures Carried(e) == []
  {
    if e != [] {
      CarriedOfManaged(e[1..]);
    }
  }

  /** What is carried is unmanaged, in the old order, each key as often as before. */
  lemma {:induction false} CarriedKeeps(e: Entries)
    requires Distinct(e) && CleanEntries(e)
    ensures Distinct(Carried(e)) && CleanEntries(Carried(e)) && Carried(Carried(e)) == Carried(e)
    ensures forall i | 0 <= i < |Carried(e)| :: !IsManaged(Carried(e)[i].0) && Carried(e)[i] in e
  {
    if e != [] {
      CarriedKeeps(e[1..]);
      var rest := Carried(e[1..]);
      forall i | 0 <= i < |rest| ensures rest[i] in e && rest[i].0 != e[0].0 {
        assert rest[i] in e[1..];
      }
      if !IsManaged(e[0].0) {
        assert ([e[0]] + rest)[1..] == rest;
      } else {
        assert [] + rest == rest;
      }
    }
  }

  lemma {:induction false} CarriedGet(e: Entries, key: string)
    requires !IsManaged(key)
    ensures Get(Carried(e), key) == Get(e, key)
  {
    if e != [] {
      CarriedGet(e[1..], key);
      GetConcat(if IsManaged(e[0].0) then [] else [e[0]], Carried(e[1..]), key);
    }
  }

  lemma {:induction false} SetKeepsDistinct(e: Entries, key: string, value: string)
    requires Distinct(e)
    ensures Distinct(Set(e, key, value))
    ensures forall i | 0 <= i < |Set(e, key, value)| :: Set(e, key, value)[i].0 == key || exists j | 0 <= j < |e| :: e[j].0 == Set(e, key, value)[i].0
  {
    if e != [] && e[0].0 != key {
      SetKeepsDistinct(e[1..], key, value);
    }
  }

  lemma {:induction false} ParsedKeysDiffer(e: Entries, lines: seq<string>)
    requires Distinct(e)
    ensures Distinct(ParseFrom(e, lines))
    decreases |lines|
  {
    if lines != [] {
      if KeyValue(lines[0]).Some? {
        SetKeepsDistinct(e, KeyValue(lines[0]).value.0, KeyValue(lines[0]).value.1);
      }
      ParsedKeysDiffer(Apply(e, lines[0]), lines[1..]);
    }
  }

  // ---------------------------------------------------------------- the main results

  lemma {:induction false} WrittenSplits(resolved: seq<ResolvedRole>, existing: Entries)
    requires ResolvedForRoles(resolved) && CleanEntries(existing) && Distinct(existing)
    ensures Written(resolved, existing) == ManagedPairs(resolved, existing) + Carried(existing)
    ensures Distinct(Written(resolved, existing))
  {
    ManagedPairNames(resolved, existing);
    ManagedKeysDifferAll();
    CarriedKeeps(existing);
    var m, c := ManagedPairs(resolved, existing), Carried(existing);
    var w: Entries := m + c;
    forall i, j | 0 <= i < j < |w| ensures w[i].0 != w[j].0 {
      if i < |m| <= j {
        assert m[i].0 == MANAGED_KEYS[i] && !IsManaged(c[j - |m|].0);
      }
    }
  }

  lemma {:induction false} CleanConcat(a: seq<Item>, b: seq<Item>)
    requires CleanItems(a) && CleanItems(b)
    ensures CleanItems(a + b)
  {
  }

  lemma {:induction false} CleanSettings(e: Entries)
    requires CleanEntries(e)
    ensures CleanItems(Settings(e))
  {
  }

  lemma {:induction false} RegistryKeyIsWellFormed()
    ensures WellFormedKey(REGISTRY_KEY)
  {
  }

  lemma {:induction false} CleanRegistry(existing: Entries)
    requires CleanEntries(existing)
    ensures CleanItems(RegistryItems(existing))
  {
    GetIsClean(existing, REGISTRY_KEY);
    RegistryKeyIsWellFormed();
    var pair := RegistryPair(existing);
    assert Note("# Written by `pnpm run deploy:registry`.").Clean();
    assert Setting(pair.0, pair.1).Clean();
  }

  lemma {:induction false} CleanCarriedNotes()
    ensures CleanItems([Note(""), Note(CARRIED_NOTE)])
  {
    NoNewlineConcat("# Carried over from the previous ", ".env.local \U{2014} bootstrap does not own these.");
  }

  lemma {:induction false} CleanCarried(existing: Entries)
    requires CleanEntries(existing) && Distinct(existing)
    ensures CleanItems(CarriedItems(existing))
  {
    CarriedKeeps(existing);
    CleanSettings(Carried(existing));
    CleanCarriedNotes();
    CleanConcat([Note(""), Note(CARRIED_NOTE)], Settings(Carried(existing)));
  }

  lemma {:induction false} LayoutIsClean(resolved: seq<ResolvedRole>, existing: Entries, now: string)
    requires ResolvedForRoles(resolved) && CleanEntries(existing) && Distinct(existing) && NoNewline(now)
    ensures CleanItems(Layout(resolved, existing, now))
  {
    var h, n, r, g := Header(now), Settings(NETWORK), RoleItems(resolved), RegistryItems(existing);
    CleanHeader(now);
    CleanNetwork();
    CleanRoleItems(resolved);
    CleanRegistry(existing);
    CleanCarried(existing);
    CleanConcat(h, n);
    CleanConcat(h + n, r);
    CleanConcat(h + n + r, g);
    CleanConcat(h + n + r + g, CarriedItems(existing));
  }

  lemma {:induction false} CleanHeader(now: string)
    requires NoNewline(now)
    ensures CleanItems(Header(now))
  {
    NoNewlineConcat("# Written by `pnpm run bootstrap` at ", now);
    NoNewlineConcat("# Written by `pnpm run bootstrap` at " + now, ".");
    NoNewlineConcat("# Contains secret seeds. Never commit ", "this file \U{2014} .gitignore already covers it.");
    NoNewlineConcat("# Re-running bootstrap reuses ", "every key below.");
  }

  lemma {:induction false} NoNewlineConcat(a: string, b: string)
    requires NoNewline(a) && NoNewline(b)
    ensures NoNewline(a + b)
  {
  }

  lemma {:induction false} NetworkKeysAreWellFormed()
    ensures forall i | 0 <= i < |NETWORK| :: WellFormedKey(NETWORK[i].0)
  {
  }

  lemma {:induction false} NetworkAddressesArePlain()
    ensures PrintableAscii(NETWORK[1].1) && PrintableAscii(NETWORK[2].1)
  {
  }

  lemma {:induction false} NetworkNamesArePlain()
    ensures PrintableAscii(NETWORK[0].1) && PrintableAscii(NETWORK[3].1) && PrintableAscii(NETWORK[4].1)
  {
  }

  lemma {:induction false} NetworkValuesAreOneLine()
    ensures forall i | 0 <= i < |NETWORK| :: OneLine(NETWORK[i].1)
  {
    NetworkAddressesArePlain();
    NetworkNamesArePlain();
    forall i | 0 <= i < |NETWORK| ensures OneLine(NETWORK[i].1) {
      PrintableIsOneLine(NETWORK[i].1);
    }
  }

  predicate PrintableAscii(s: string) {
    forall i | 0 <= i < |s| :: ' ' <= s[i] <= '~'
  }

  lemma {:induction false} PrintableIsOneLine(s: string)
    requires PrintableAscii(s)
    ensures OneLine(s)
  {
  }

  lemma {:induction false} CleanNetwork()
    ensures CleanItems(Settings(NETWORK))
  {
    NetworkKeysAreWellFormed();
    NetworkValuesAreOneLine();
  }

  lemma {:induction false} RoleKeysAreWellFormed()
    ensures forall i | 0 <= i < |ROLES| :: WellFormedKey(ROLES[i].PublicKeyName()) && WellFormedKey(ROLES[i].SecretKeyName())
  {
  }

  lemma {:induction false} AdminPurposeIsOneLine()
    ensures NoNewline(ROLES[0].purpose)
  {
    NoNewlineConcat("registry admin \U{2014} register_issuer ", "/ deactivate_issuer");
  }

  lemma {:induction false} OtherPurposesAreOneLine()
    ensures NoNewline(ROLES[1].purpose) && NoNewline(ROLES[2].purpose)
  {
  }

  lemma {:induction false} CleanRoleItems(resolved: seq<ResolvedRole>)
    requires ResolvedForRoles(resolved)
    ensures CleanItems(RoleItems(resolved))
  {
    RoleKeysAreWellFormed();
    AdminPurposeIsOneLine();
    OtherPurposesAreOneLine();
    forall i | 0 <= i < |resolved|
      ensures WellFormedKey(resolved[i].role.PublicKeyName()) && WellFormedKey(resolved[i].role.SecretKeyName())
      ensures NoNewline(resolved[i].role.purpose)
    {
      assert resolved[i].role == ROLES[i];
    }
    CleanRoleItemsOf(resolved);
  }

  lemma {:induction false} CleanRoleItemsOf(resolved: seq<ResolvedRole>)
    requires forall i | 0 <= i < |resolved| ::
      && WellFormedKey(resolved[i].role.PublicKeyName()) && WellFormedKey(resolved[i].role.SecretKeyName())
      && NoNewline(resolved[i].role.purpose)
      && CleanText(resolved[i].keypair.publicKey) && CleanText(resolved[i].keypair.secret)
    ensures CleanItems(RoleItems(resolved))
  {
    if resolved != [] {
      CleanRoleItemsOf(resolved[1..]);
    }
  }

  /** The rendered file is read back as exactly what was meant to be written, in order. */
  lemma {:induction false} RewriteReadsBack(resolved: seq<ResolvedRole>, existing: Entries, now: string)
    requires ResolvedForRoles(resolved) && CleanEntries(existing) && Distinct(existing) && NoNewline(now)
    ensures Parsed(Rendered(resolved, existing, now)) == Written(resolved, existing)
  {
    PairsOfLayout(resolved, existing, now);
    LayoutIsClean(resolved, existing, now);
    WrittenSplits(resolved, existing);
    ItemsReadBack(Layout(resolved, existing, now));
  }

  /** Every key bootstrap does not own keeps its value, or its absence. */
  lemma {:induction false} RewriteKeepsUnmanaged(resolved: seq<ResolvedRole>, existing: Entries, key: string)
    requires ResolvedForRoles(resolved) && CleanEntries(existing) && Distinct(existing) && !IsManaged(key)
    ensures Get(Written(resolved, existing), key) == Get(existing, key)
  {
    WrittenSplits(resolved, existing);
    ManagedPairNames(resolved, existing);
    GetAbsent(ManagedPairs(resolved, existing), key);
    GetConcat(ManagedPairs(resolved, existing), Carried(existing), key);
    CarriedGet(existing, key);
  }

  lemma {:induction false} RewriteHoldsKeys(resolved: seq<ResolvedRole>, existing: Entries, i: nat)
    requires ResolvedForRoles(resolved) && CleanEntries(existing) && Distinct(existing) && i < |ROLES|
    ensures Get(Written(resolved, existing), ROLES[i].PublicKeyName()) == Some(resolved[i].keypair.publicKey)
    ensures Get(Written(resolved, existing), ROLES[i].SecretKeyName()) == Some(resolved[i].keypair.secret)
  {
    WrittenSplits(resolved, existing);
    RoleNames();
    RolePairsOfRoles(resolved);
    var w := Written(resolved, existing);
    assert w[5 + 2 * i] == RolePairs(resolved)[2 * i];
    assert w[6 + 2 * i] == RolePairs(resolved)[2 * i + 1];
    GetAt(w, 5 + 2 * i);
    GetAt(w, 6 + 2 * i);
  }

  /** A value that was there, or an empty one. */
  function KeptOrEmpty(value: Option<string>): Option<string> {
    if value.Some? then value else Some("")
  }

  /** What the rewritten file says of the network. */
  predicate NamesTestnet(e: Entries) {
    && Get(e, "STELLAR_NETWORK") == Some("testnet")
    && Get(e, "STELLAR_RPC_URL") == Some("https://soroban-testnet.stellar.org")
    && Get(e, "STELLAR_HORIZON_URL") == Some("https://horizon-testnet.stellar.org")
    && Get(e, "STELLAR_NETWORK_PASSPHRASE") == Some("Test SDF Network ; September 2015")
    && Get(e, "STELLAR_FRIENDBOT_URL") == Some("https://friendbot.stellar.org")
  }

  lemma {:induction false} WrittenAt(resolved: seq<ResolvedRole>, existing: Entries, i: nat)
    requires ResolvedForRoles(resolved) && CleanEntries(existing) && Distinct(existing) && i < |NETWORK|
    ensures Get(Written(resolved, existing), NETWORK[i].0) == Some(NETWORK[i].1)
  {
    WrittenSplits(resolved, existing);
    assert Written(resolved, existing)[i] == NETWORK[i];
    GetAt(Written(resolved, existing), i);
  }

  lemma {:induction false} RewriteHoldsNetwork(resolved: seq<ResolvedRole>, existing: Entries)
    requires ResolvedForRoles(resolved) && CleanEntries(existing) && Distinct(existing)
    ensures NamesTestnet(Written(resolved, existing))
  {
    hide Written, Get;
    WrittenAt(resolved, existing, 0);
    WrittenAt(resolved, existing, 1);
    WrittenAt(resolved, existing, 2);
    WrittenAt(resolved, existing, 3);
    WrittenAt(resolved, existing, 4);
  }

  lemma {:induction false} RewriteHoldsRegistry(resolved: seq<ResolvedRole>, existing: Entries)
    requires ResolvedForRoles(resolved) && CleanEntries(existing) && Distinct(existing)
    ensures Get(Written(resolved, existing), "AGENT_REGISTRY_CONTRACT_ID") == KeptOrEmpty(Get(existing, "AGENT_REGISTRY_CONTRACT_ID"))
    ensures RegistryPair(Written(resolved, existing)) == RegistryPair(existing)
    ensures Carried(Written(resolved, existing)) == Carried(existing)
  {
    var m := ManagedPairs(resolved, existing);
    WrittenSplits(resolved, existing);
    ManagedPairNames(resolved, existing);
    assert Written(resolved, existing)[|m| - 1] == RegistryPair(existing);
    GetAt(Written(resolved, existing), |m| - 1);
    CarriedConcat(m, Carried(existing));
    CarriedOfManaged(m);
    CarriedKeeps(existing);
    assert [] + Carried(existing) == Carried(existing);
  }

  function AsReused(resolved: seq<ResolvedRole>): seq<ResolvedRole> {
    seq(|resolved|, i requires 0 <= i < |resolved| => resolved[i].(origin := Reused))
  }

  lemma {:induction false} OriginIsNotWritten(resolved: seq<ResolvedRole>)
    ensures RoleItems(AsReused(resolved)) == RoleItems(resolved)
  {
    if resolved != [] {
      assert AsReused(resolved)[1..] == AsReused(resolved[1..]);
      OriginIsNotWritten(resolved[1..]);
    }
  }

  lemma {:induction false} ResolvedTextIsClean(env: Entries, accounts: Accounts, minted: seq<Keypair>)
    requires CleanAccounts(accounts) && |minted| == |ROLES| && forall i | 0 <= i < |minted| :: IsKeypair(accounts, minted[i])
    ensures var r := ResolveAll(ROLES, env, accounts, minted);
            r.Ok? ==> ResolvedForRoles(r.value) && forall i | 0 <= i < |ROLES| :: IsKeypair(accounts, r.value[i].keypair)
  {
    var r := ResolveAll(ROLES, env, accounts, minted);
    if r.Ok? {
      forall i | 0 <= i < |ROLES|
        ensures r.value[i].role == ROLES[i] && CleanText(r.value[i].keypair.publicKey) && CleanText(r.value[i].keypair.secret)
        ensures IsKeypair(accounts, r.value[i].keypair)
      {
        assert ResolveKeypair(ROLES[i], env, accounts, minted[i]) == Ok(r.value[i]);
        assert IsKeypair(accounts, minted[i]);
        assert accounts(r.value[i].keypair.secret).Some?;
      }
    }
  }

  /** Resolving from the rewritten file finds every key again. */
  lemma {:induction false} ResolvedAgain(resolved: seq<ResolvedRole>, existing: Entries, accounts: Accounts, minted: seq<Keypair>)
    requires ResolvedForRoles(resolved) && CleanEntries(existing) && Distinct(existing)
    requires forall i | 0 <= i < |ROLES| :: IsKeypair(accounts, resolved[i].keypair)
    requires |minted| == |ROLES|
    ensures ResolveAll(ROLES, Written(resolved, existing), accounts, minted) == Ok(AsReused(resolved))
  {
    var w := Written(resolved, existing);
    forall i | 0 <= i < |ROLES| ensures ResolveKeypair(ROLES[i], w, accounts, minted[i]) == Ok(resolved[i].(origin := Reused)) {
      RewriteHoldsKeys(resolved, existing, i);
      TrimTrimmed(resolved[i].keypair.secret);
      TrimTrimmed(resolved[i].keypair.publicKey);
    }
    var again := ResolveAll(ROLES, w, accounts, minted);
    assert again.Ok?;
    assert again.value == AsReused(resolved);
  }

  /** Bootstrap on any file: unmanaged keys survive, the roles' keys are written, and a second run reuses every key and
      writes the same text. */
  lemma {:induction false} BootstrapTwice(contents: string, accounts: Accounts, minted: seq<Keypair>, mintedAgain: seq<Keypair>, now: string)
    requires CleanAccounts(accounts) && NoNewline(now)
    requires |minted| == |ROLES| && forall i | 0 <= i < |minted| :: IsKeypair(accounts, minted[i])
    requires |mintedAgain| == |ROLES|
    requires ResolveAll(ROLES, Parsed(contents), accounts, minted).Ok?
    ensures var resolved := ResolveAll(ROLES, Parsed(contents), accounts, minted).value;
            var text := Rendered(resolved, Parsed(contents), now);
            && (forall key | !IsManaged(key) :: Get(Parsed(text), key) == Get(Parsed(contents), key))
            && (forall i | 0 <= i < |ROLES| ::
                 && Get(Parsed(text), ROLES[i].PublicKeyName()) == Some(resolved[i].keypair.publicKey)
                 && Get(Parsed(text), ROLES[i].SecretKeyName()) == Some(resolved[i].keypair.secret))
            && NamesTestnet(Parsed(text))
            && Get(Parsed(text), "AGENT_REGISTRY_CONTRACT_ID") == KeptOrEmpty(Get(Parsed(contents), "AGENT_REGISTRY_CONTRACT_ID"))
            && ResolveAll(ROLES, Parsed(text), accounts, mintedAgain) == Ok(AsReused(resolved))
            && Rendered(AsReused(resolved), Parsed(text), now) == text
  {
    var existing := Parsed(contents);
    var resolved := ResolveAll(ROLES, existing, accounts, minted).value;
    ParsedEntriesAreClean([], SplitLines(contents));
    ParsedKeysDiffer([], SplitLines(contents));
    ResolvedTextIsClean(existing, accounts, minted);
    RewriteReadsBack(resolved, existing, now);
    forall key | !IsManaged(key) ensures Get(Written(resolved, existing), key) == Get(existing, key) {
      RewriteKeepsUnmanaged(resolved, existing, key);
    }
    forall i | 0 <= i < |ROLES|
      ensures Get(Written(resolved, existing), ROLES[i].PublicKeyName()) == Some(resolved[i].keypair.publicKey)
      ensures Get(Written(resolved, existing), ROLES[i].SecretKeyName()) == Some(resolved[i].keypair.secret)
    {
      RewriteHoldsKeys(resolved, existing, i);
    }
    ResolvedAgain(resolved, existing, accounts, mintedAgain);
    RewriteHoldsRegistry(resolved, existing);
    RewriteHoldsNetwork(resolved, existing);
    OriginIsNotWritten(resolved);
    assert RegistryItems(Written(resolved, existing)) == RegistryItems(existing);
    assert CarriedItems(Written(resolved, existing)) == CarriedItems(existing);
  }
}
