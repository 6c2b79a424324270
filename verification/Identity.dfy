/** The identity compiler (`pkg/exoskeleton/identity.go`): names of one tenant in each backing
    service, and how far those names keep tenants apart. */
module Identity {
  import opened Wrappers
  import opened Text
  import opened EnclaveAnnotations

  /** Eight lower-case hexadecimal digits: the first four bytes of a SHA-256 digest. */
  type Hex8 = s: string | |s| == 8 && forall c <- s :: '0' <= c <= '9' || 'a' <= c <= 'f' witness "00000000"

  datatype Identity = Identity(
    namespace: string, workflow: string, principal: string, pgRole: string, pgSchema: string,
    natsUser: string, natsPrefix: string, s3Prefix: string, s3User: string, s3Policy: string)

  datatype EnclaveIdentity = EnclaveIdentity(enclave: string, pgDb: string, s3Bucket: string, natsAcct: string)

  datatype IdentityError = EmptyNamespace | EmptyWorkflow | EmptyEnclave | InvalidEnclaveName

  predicate PgChar(c: char) {
    Alnum(c) || c == '_'
  }

  function PgMap(c: char): char {
    LowerChar(if c == '-' then '_' else c)
  }

  /** Hyphens become underscores, letters lower case, and anything else outside [a-z0-9_] is dropped. */
  function ReplacePg(s: string): string {
    if s == [] then []
    else (if PgChar(PgMap(s[0])) then [PgMap(s[0])] else []) + ReplacePg(s[1..])
  }

  const MAX_PG := 63
  const MAX_BUCKET := 63

  function TruncatePg(raw: string, hash: string -> Hex8): string {
    if |raw| <= MAX_PG then raw else raw[..MAX_PG - 9] + "_" + hash(raw)
  }

  function TruncateS3Bucket(raw: string, hash: string -> Hex8): string {
    if |raw| <= MAX_BUCKET then raw else raw[..MAX_BUCKET - 9] + "-" + hash(raw)
  }

  function SanitizePg(ns: string, wf: string, hash: string -> Hex8): string {
    TruncatePg("tn_" + ReplacePg(ns) + "_" + ReplacePg(wf), hash)
  }

  function CompileIdentity(ns: string, wf: string, hash: string -> Hex8): Result<Identity, IdentityError> {
    if ns == "" then Err(EmptyNamespace)
    else if wf == "" then Err(EmptyWorkflow)
    else
      var pg := SanitizePg(ns, wf, hash);
      Ok(Identity(ns, wf,
                  "spiffe://tentacular/ns/" + ns + "/tentacles/" + wf,
                  pg, pg,
                  "tentacle." + ns + "." + wf,
                  "tentacular." + ns + "." + wf + ".>",
                  "ns/" + ns + "/tentacles/" + wf + "/",
                  pg,
                  TruncatePg("tn_" + ReplacePg(ns) + "_" + ReplacePg(wf) + "_policy", hash)))
  }

  /** The copy of the name check in this package, which also tells an empty name apart. */
  function ValidateName(name: string): Option<IdentityError> {
    if name == "" then Some(EmptyEnclave)
    else if !DnsLabel(name) then Some(InvalidEnclaveName)
    else if '.' in name then Some(InvalidEnclaveName)
    else None
  }

  function CompileEnclaveIdentity(enclave: string, hash: string -> Hex8): Result<EnclaveIdentity, IdentityError> {
    var bad := ValidateName(enclave);
    if bad.Some? then Err(bad.value)
    else Ok(EnclaveIdentity(enclave, TruncatePg("tn_" + ReplacePg(enclave), hash),
                            TruncateS3Bucket("tentacular-" + enclave, hash), "tentacular." + enclave))
  }

  // ----- tenants in SPIFFE, NATS and S3 -----

  /** Distinct tenants have distinct principals, as long as namespaces hold no slash. */
  lemma PrincipalsDiffer(n1: string, w1: string, n2: string, w2: string, hash: string -> Hex8)
    requires CompileIdentity(n1, w1, hash).Ok? && CompileIdentity(n2, w2, hash).Ok?
    requires '/' !in n1 && '/' !in n2
    requires CompileIdentity(n1, w1, hash).value.principal == CompileIdentity(n2, w2, hash).value.principal
    ensures n1 == n2 && w1 == w2
  {
    hide ReplacePg, TruncatePg, SanitizePg;
    var p, t := "spiffe://tentacular/ns/", "/tentacles/";
    SpiffeParts(p, n1, t, w1);
    SpiffeParts(p, n2, t, w2);
    Behind(p, n1 + ['/'] + ("tentacles/" + w1), n2 + ['/'] + ("tentacles/" + w2));
    FirstSeparator(n1, "tentacles/" + w1, n2, "tentacles/" + w2, '/');
    Behind("tentacles/", w1, w2);
  }

  lemma SpiffeParts(p: string, n: string, t: string, w: string)
    requires t == "/tentacles/"
    ensures p + n + t + w == p + (n + ['/'] + ("tentacles/" + w))
  {
    assert t == ['/'] + "tentacles/";
    assert p + n + t + w == p + (n + t + w);
    assert n + t + w == n + ['/'] + ("tentacles/" + w);
  }

  /** Distinct tenants have distinct NATS users, as long as namespaces hold no dot. */
  lemma NatsUsersDiffer(n1: string, w1: string, n2: string, w2: string, hash: string -> Hex8)
    requires CompileIdentity(n1, w1, hash).Ok? && CompileIdentity(n2, w2, hash).Ok?
    requires '.' !in n1 && '.' !in n2
    requires CompileIdentity(n1, w1, hash).value.natsUser == CompileIdentity(n2, w2, hash).value.natsUser
    ensures n1 == n2 && w1 == w2
  {
    hide ReplacePg, TruncatePg, SanitizePg;
    var p := "tentacle.";
    assert p + n1 + "." + w1 == p + (n1 + ['.'] + w1);
    assert p + n2 + "." + w2 == p + (n2 + ['.'] + w2);
    Behind(p, n1 + ['.'] + w1, n2 + ['.'] + w2);
    FirstSeparator(n1, w1, n2, w2, '.');
  }

  /** No object key lies under the S3 prefixes of two tenants whose names hold no slash. */
  lemma S3PrefixesDisjoint(n1: string, w1: string, n2: string, w2: string, hash: string -> Hex8, key: string)
    requires CompileIdentity(n1, w1, hash).Ok? && CompileIdentity(n2, w2, hash).Ok?
    requires '/' !in n1 && '/' !in n2 && '/' !in w1 && '/' !in w2
    requires CompileIdentity(n1, w1, hash).value.s3Prefix <= key
    requires CompileIdentity(n2, w2, hash).value.s3Prefix <= key
    ensures n1 == n2 && w1 == w2
  {
    hide ReplacePg, TruncatePg, SanitizePg;
    var k1 := key[|CompileIdentity(n1, w1, hash).value.s3Prefix|..];
    var k2 := key[|CompileIdentity(n2, w2, hash).value.s3Prefix|..];
    var r1, r2 := w1 + ['/'] + k1, w2 + ['/'] + k2;
    S3Parts(n1, w1, k1);
    S3Parts(n2, w2, k2);
    Behind("ns/", n1 + ['/'] + ("tentacles/" + r1), n2 + ['/'] + ("tentacles/" + r2));
    FirstSeparator(n1, "tentacles/" + r1, n2, "tentacles/" + r2, '/');
    Behind("tentacles/", r1, r2);
    FirstSeparator(w1, k1, w2, k2, '/');
  }

  lemma S3Parts(n: string, w: string, k: string)
    ensures "ns/" + n + "/tentacles/" + w + "/" + k == "ns/" + (n + ['/'] + ("tentacles/" + (w + ['/'] + k)))
  {
    var t := "/tentacles/";
    assert t == ['/'] + "tentacles/";
    var tail := w + ['/'] + k;
    assert n + t + tail == n + ['/'] + ("tentacles/" + tail);
    assert "ns/" + n + t + w + "/" + k == "ns/" + (n + t + tail);
  }

  /** Namespace and workflow can be read back from their places in every name that is not folded. */
  lemma NamesReadBack(ns: string, wf: string, hash: string -> Hex8)
    requires CompileIdentity(ns, wf, hash).Ok?
    ensures var id := CompileIdentity(ns, wf, hash).value;
            && (id.namespace, id.workflow) == (ns, wf)
            && ('/' !in ns && '/' !in wf ==>
                  && Split(id.principal, '/') == ["spiffe:", "", "tentacular", "ns", ns, "tentacles", wf]
                  && Split(id.s3Prefix, '/') == ["ns", ns, "tentacles", wf, ""])
            && ('.' !in ns ==>
                  && Split(id.natsUser, '.') == ["tentacle", ns] + Split(wf, '.')
                  && Split(id.natsPrefix, '.') == ["tentacular", ns] + Split(wf, '.') + [">"])
  {
    hide ReplacePg, TruncatePg, SanitizePg, Split;
    var id := CompileIdentity(ns, wf, hash).value;
    if '/' !in ns && '/' !in wf {
      PrincipalParts(ns, wf);
      PrefixParts(ns, wf);
    }
    if '.' !in ns {
      PrefixTokens(ns, wf);
      var rest := ns + ['.'] + wf;
      assert id.natsUser == "tentacle" + ['.'] + rest by {
        assert "tentacle." == "tentacle" + ['.'];
        assert "tentacle." + ns + "." + wf == "tentacle" + ['.'] + (ns + ['.'] + wf);
      }
      SplitCons("tentacle", rest, '.');
      SplitCons(ns, wf, '.');
    }
  }

  lemma PrincipalParts(ns: string, wf: string)
    requires '/' !in ns && '/' !in wf
    ensures Split("spiffe://tentacular/ns/" + ns + "/tentacles/" + wf, '/') ==
            ["spiffe:", "", "tentacular", "ns", ns, "tentacles", wf]
  {
    hide Split;
    var parts := ["spiffe:", "", "tentacular", "ns", ns, "tentacles", wf];
    JoinParts(parts[4..], ns, wf);
    var tail := ns + "/tentacles/" + wf;
    assert Join(parts[3..], ['/']) == "ns" + "/" + tail by { assert parts[3..][1..] == parts[4..]; }
    assert Join(parts[2..], ['/']) ==
        "tentacular" + "/" + ("ns" + "/" + tail) by { assert parts[2..][1..] == parts[3..]; }
    assert Join(parts[1..], ['/']) ==
        "" + "/" + ("tentacular" + "/" + ("ns" + "/" + tail)) by { assert parts[1..][1..] == parts[2..]; }
    assert Join(parts, ['/']) == "spiffe:" + "/" + ("" + "/" + ("tentacular" + "/" + ("ns" + "/" + tail)));
    assert "spiffe://tentacular/ns/" == "spiffe:" + "/" + "" + "/" + "tentacular" + "/" + "ns" + "/";
    assert "spiffe://tentacular/ns/" + ns + "/tentacles/" + wf == "spiffe://tentacular/ns/" + tail;
    assert Join(parts, ['/']) == "spiffe://tentacular/ns/" + tail;
    SplitJoin(parts, '/');
  }

  lemma JoinParts(parts: seq<string>, ns: string, wf: string)
    requires parts == [ns, "tentacles", wf]
    ensures Join(parts, ['/']) == ns + "/tentacles/" + wf
  {
    assert parts[1..] == ["tentacles", wf] && parts[1..][1..] == [wf];
    assert "/tentacles/" == "/" + "tentacles" + "/";
    assert Join(parts[1..], ['/']) == "tentacles" + "/" + wf;
  }

  lemma PrefixParts(ns: string, wf: string)
    requires '/' !in ns && '/' !in wf
    ensures Split("ns/" + ns + "/tentacles/" + wf + "/", '/') == ["ns", ns, "tentacles", wf, ""]
  {
    hide Split;
    var parts := ["ns", ns, "tentacles", wf];
    assert parts[1..] == [ns, "tentacles", wf];
    JoinParts(parts[1..], ns, wf);
    assert Join(parts, ['/']) == "ns" + "/" + (ns + "/tentacles/" + wf);
    assert "ns/" == "ns" + "/";
    var s := "ns/" + ns + "/tentacles/" + wf;
    assert s == Join(parts, ['/']);
    SplitJoin(parts, '/');
    assert s + "/" == s + ['/'] + "";
    SplitAppend(s, "", '/');
    SplitOne("", '/');
  }

  // ----- NATS subjects -----

  /** NATS subject matching over tokens: `*` stands for one token, a final `>` for one or more. */
  predicate Matches(pattern: seq<string>, subject: seq<string>) {
    if pattern == [] then subject == []
    else if pattern == [">"] then subject != []
    else subject != [] && (pattern[0] == "*" || pattern[0] == subject[0]) && Matches(pattern[1..], subject[1..])
  }

  predicate Literal(tokens: seq<string>) {
    forall t <- tokens :: t != "*" && t != ">"
  }

  /** The tokens a tenant's subjects start with. */
  function SubjectTokens(ns: string, wf: string): seq<string> {
    ["tentacular", ns] + Split(wf, '.')
  }

  lemma PrefixTokens(ns: string, wf: string)
    requires '.' !in ns
    ensures Split("tentacular." + ns + "." + wf + ".>", '.') == SubjectTokens(ns, wf) + [">"]
  {
    var t := "tentacular";
    assert "tentacular." == t + ['.'];
    assert "tentacular." + ns + "." + wf + ".>" == t + ['.'] + (ns + ['.'] + (wf + ['.'] + ">"));
    SplitCons(t, ns + ['.'] + (wf + ['.'] + ">"), '.');
    SplitCons(ns, wf + ['.'] + ">", '.');
    SplitAppend(wf, ">", '.');
    SplitOne(">", '.');
  }

  lemma {:induction false} MatchesPrefix(tokens: seq<string>, subject: seq<string>)
    requires Literal(tokens)
    ensures Matches(tokens + [">"], subject) <==> tokens <= subject && |tokens| < |subject|
  {
    var p := tokens + [">"];
    if tokens != [] {
      assert p[0] == tokens[0] && p[1..] == tokens[1..] + [">"];
      assert tokens[0] in tokens && forall t <- tokens[1..] :: t in tokens;
      if subject != [] {
        MatchesPrefix(tokens[1..], subject[1..]);
        assert tokens <= subject <==> tokens[0] == subject[0] && tokens[1..] <= subject[1..];
      }
    } else {
      assert p == [">"];
    }
  }

  /** Some subject lies under both tenants' NATS prefixes exactly when the tokens of one are a
      prefix of the tokens of the other. */
  lemma NatsOverlap(n1: string, w1: string, n2: string, w2: string, hash: string -> Hex8)
    requires CompileIdentity(n1, w1, hash).Ok? && CompileIdentity(n2, w2, hash).Ok?
    requires '.' !in n1 && '.' !in n2
    requires Literal(SubjectTokens(n1, w1)) && Literal(SubjectTokens(n2, w2))
    ensures var p1 := Split(CompileIdentity(n1, w1, hash).value.natsPrefix, '.');
            var p2 := Split(CompileIdentity(n2, w2, hash).value.natsPrefix, '.');
            (exists s :: Matches(p1, s) && Matches(p2, s)) <==>
            (SubjectTokens(n1, w1) <= SubjectTokens(n2, w2) || SubjectTokens(n2, w2) <= SubjectTokens(n1, w1))
  {
    hide ReplacePg, TruncatePg, SanitizePg, SubjectTokens, Split;
    var t1, t2 := SubjectTokens(n1, w1), SubjectTokens(n2, w2);
    PrefixTokens(n1, w1);
    PrefixTokens(n2, w2);
    TokensOverlap(t1, t2);
  }

  lemma TokensOverlap(t1: seq<string>, t2: seq<string>)
    requires Literal(t1) && Literal(t2)
    ensures (exists s :: Matches(t1 + [">"], s) && Matches(t2 + [">"], s)) <==> t1 <= t2 || t2 <= t1
  {
    hide Literal, Matches;
    forall s ensures Matches(t1 + [">"], s) && Matches(t2 + [">"], s) ==> t1 <= t2 || t2 <= t1 {
      MatchesPrefix(t1, s);
      MatchesPrefix(t2, s);
    }
    var long := (if |t1| <= |t2| then t2 else t1) + ["x"];
    MatchesPrefix(t1, long);
    MatchesPrefix(t2, long);
    if t1 <= t2 || t2 <= t1 {
      assert Matches(t1 + [">"], long) && Matches(t2 + [">"], long);
    }
  }

  /** Two different tenants with dot-free workflows share no subject. */
  lemma DotFreeTenantsApart(n1: string, w1: string, n2: string, w2: string, hash: string -> Hex8, subject: seq<string>)
    requires CompileIdentity(n1, w1, hash).Ok? && CompileIdentity(n2, w2, hash).Ok?
    requires '.' !in n1 && '.' !in n2 && '.' !in w1 && '.' !in w2
    requires Literal([n1, w1]) && Literal([n2, w2])
    requires Matches(Split(CompileIdentity(n1, w1, hash).value.natsPrefix, '.'), subject)
    requires Matches(Split(CompileIdentity(n2, w2, hash).value.natsPrefix, '.'), subject)
    ensures n1 == n2 && w1 == w2
  {
    hide ReplacePg, TruncatePg, SanitizePg, Matches, CompileIdentity;
    SplitOne(w1, '.');
    SplitOne(w2, '.');
    assert n1 in [n1, w1] && w1 in [n1, w1] && n2 in [n2, w2] && w2 in [n2, w2];
    NatsOverlap(n1, w1, n2, w2, hash);
    var t1, t2 := ["tentacular", n1, w1], ["tentacular", n2, w2];
    assert SubjectTokens(n1, w1) == t1 && SubjectTokens(n2, w2) == t2;
    assert t1[1] == n1 && t1[2] == w1 && t2[1] == n2 && t2[2] == w2;
  }

  /** A workflow and any dotted extension of its name, both valid names, share subjects. */
  lemma DottedTenantsOverlap(ns: string, wf: string, more: string, hash: string -> Hex8)
    requires CompileIdentity(ns, wf, hash).Ok? && '.' !in ns
    requires Literal(SubjectTokens(ns, wf + ['.'] + more)) && Literal(SubjectTokens(ns, wf))
    ensures CompileIdentity(ns, wf + ['.'] + more, hash).Ok?
    ensures exists s :: Matches(Split(CompileIdentity(ns, wf, hash).value.natsPrefix, '.'), s) &&
                        Matches(Split(CompileIdentity(ns, wf + ['.'] + more, hash).value.natsPrefix, '.'), s)
  {
    SplitAppend(wf, more, '.');
    assert SubjectTokens(ns, wf) <= SubjectTokens(ns, wf + ['.'] + more);
    NatsOverlap(ns, wf, ns, wf + ['.'] + more, hash);
  }

  // ----- Postgres -----

  predicate PgName(s: string) {
    |s| <= MAX_PG && "tn_" <= s && forall c <- s :: PgChar(c)
  }

  lemma {:induction false} ReplacePgChars(s: string)
    ensures forall c <- ReplacePg(s) :: PgChar(c)
  {
    if s != [] {
      ReplacePgChars(s[1..]);
    }
  }

  lemma TruncatePgName(raw: string, hash: string -> Hex8)
    requires "tn_" <= raw && forall c <- raw :: PgChar(c)
    ensures PgName(TruncatePg(raw, hash))
  {
    if |raw| > MAX_PG {
      var h: string := hash(raw);
      forall c | c in TruncatePg(raw, hash) ensures PgChar(c) {
        assert c in raw || c == '_' || c in h;
      }
    }
  }

  /** Every Postgres role and S3 policy name is a Postgres identifier of at most 63 characters
      over [a-z0-9_] that starts with tn_. */
  lemma PgNamesValid(ns: string, wf: string, hash: string -> Hex8)
    requires CompileIdentity(ns, wf, hash).Ok?
    ensures var id := CompileIdentity(ns, wf, hash).value;
            PgName(id.pgRole) && id.pgSchema == id.pgRole && id.s3User == id.pgRole && PgName(id.s3Policy)
  {
    hide ReplacePg, TruncatePg, PgName, Alnum;
    ReplacePgChars(ns);
    ReplacePgChars(wf);
    PgLiterals();
    TruncatePgName("tn_" + ReplacePg(ns) + "_" + ReplacePg(wf), hash);
    TruncatePgName("tn_" + ReplacePg(ns) + "_" + ReplacePg(wf) + "_policy", hash);
  }

  lemma PgLiterals()
    ensures forall c <- "tn_" :: PgChar(c)
    ensures forall c <- "_" :: PgChar(c)
    ensures forall c <- "_policy" :: PgChar(c)
  {
  }

  lemma {:induction false} ReplacePgConcat(a: string, b: string)
    ensures ReplacePg(a + b) == ReplacePg(a) + ReplacePg(b)
  {
    hide PgMap, PgChar;
    if a == [] {
      assert a + b == b;
    } else {
      var first := if PgChar(PgMap(a[0])) then [PgMap(a[0])] else [];
      assert (a + b)[0] == a[0] && (a + b)[1..] == a[1..] + b;
      ReplacePgConcat(a[1..], b);
      assert ReplacePg(a + b) == first + ReplacePg(a[1..] + b);
      assert ReplacePg(a) == first + ReplacePg(a[1..]);
    }
  }

  /** Roles do not tell all tenants apart: moving a hyphenated part from the workflow to the
      namespace gives the same role, for all names. */
  lemma PgRolesCollide(a: string, b: string, c: string, hash: string -> Hex8)
    requires a != "" && c != ""
    ensures var x, y := CompileIdentity(a + "-" + b, c, hash), CompileIdentity(a, b + "-" + c, hash);
            x.Ok? && y.Ok? && x.value.pgRole == y.value.pgRole && x.value.s3Policy == y.value.s3Policy
  {
    hide ReplacePg, TruncatePg;
    ReplaceHyphenated(a, b);
    ReplaceHyphenated(b, c);
    Regrouped(ReplacePg(a), ReplacePg(b), ReplacePg(c));
  }

  lemma ReplaceHyphenated(a: string, b: string)
    ensures ReplacePg(a + "-" + b) == ReplacePg(a) + "_" + ReplacePg(b)
  {
    ReplacePgConcat(a + "-", b);
    ReplacePgConcat(a, "-");
    assert ReplacePg("-") == "_";
  }

  lemma Regrouped(x: string, y: string, z: string)
    ensures "tn_" + (x + "_" + y) + "_" + z == "tn_" + x + "_" + (y + "_" + z)
    ensures "tn_" + (x + "_" + y) + "_" + z + "_policy" == "tn_" + x + "_" + (y + "_" + z) + "_policy"
  {
    var u := "tn_" + x + "_" + y + "_" + z;
    assert "tn_" + (x + "_" + y) + "_" + z == u;
    assert "tn_" + x + "_" + (y + "_" + z) == u;
  }

  // ----- which names Postgres tells apart -----

  predicate LabelText(s: string) {
    forall c <- s :: Alnum(c) || c == '-'
  }

  lemma {:induction false} LabelPg(s: string)
    requires LabelText(s)
    ensures |ReplacePg(s)| == |s|
    ensures forall i :: 0 <= i < |s| ==> ReplacePg(s)[i] == if s[i] == '-' then '_' else s[i]
  {
    if s != [] {
      assert s[0] in s && forall c <- s[1..] :: c in s;
      LabelPg(s[1..]);
    }
  }

  /** On label texts the replacement loses nothing, over any common length. */
  lemma PgPrefixes(a: string, b: string, n: nat)
    requires LabelText(a) && LabelText(b) && n <= |a| && n <= |b|
    ensures |ReplacePg(a)| == |a| && |ReplacePg(b)| == |b|
    ensures ReplacePg(a)[..n] == ReplacePg(b)[..n] <==> a[..n] == b[..n]
  {
    hide ReplacePg;
    LabelPg(a);
    LabelPg(b);
    var x, y := ReplacePg(a)[..n], ReplacePg(b)[..n];
    if x == y {
      forall i | 0 <= i < n ensures a[i] == b[i] {
        assert x[i] == y[i] && a[i] in a && b[i] in b;
      }
    }
    if a[..n] == b[..n] {
      forall i | 0 <= i < n ensures x[i] == y[i] {
        assert a[..n][i] == b[..n][i];
      }
    }
  }

  lemma PgInjective(a: string, b: string)
    requires LabelText(a) && LabelText(b)
    ensures ReplacePg(a) == ReplacePg(b) <==> a == b
  {
    hide ReplacePg, LabelText;
    LabelPg(a);
    LabelPg(b);
    if |a| == |b| {
      PgPrefixes(a, b, |a|);
      assert ReplacePg(a)[..|a|] == ReplacePg(a) && ReplacePg(b)[..|b|] == ReplacePg(b);
      assert a[..|a|] == a && b[..|b|] == b;
    }
  }

  function PgRaw(s: string): string {
    "tn_" + ReplacePg(s)
  }

  lemma CutsEqual(x: string, h: string, y: string, g: string, mark: string)
    requires |x| == |y|
    ensures x + mark + h == y + mark + g <==> x == y && h == g
  {
    if x + mark + h == y + mark + g {
      assert (x + mark + h)[..|x|] == x && (y + mark + g)[..|y|] == y;
      Behind(x + mark, h, g);
    }
  }

  /** A name that fits equals a name that was cut only if it ends in the digest of the latter. */
  predicate PosesAsCut(short: string, long: string, hash: string -> Hex8)
    requires |ReplacePg(long)| >= 51
  {
    ReplacePg(short) == ReplacePg(long)[..51] + "_" + hash(PgRaw(long))
  }

  /** When two label texts get the same Postgres name. Up to 60 characters they must be equal;
      beyond, 51 characters and the digests must agree. */
  ghost predicate PgSame(a: string, b: string, hash: string -> Hex8)
    requires LabelText(a) && LabelText(b)
  {
    LabelPg(a);
    LabelPg(b);
    if |a| <= 60 && |b| <= 60 then a == b
    else if |a| > 60 && |b| > 60 then a[..51] == b[..51] && hash(PgRaw(a)) == hash(PgRaw(b))
    else if |a| <= 60 then PosesAsCut(a, b, hash)
    else PosesAsCut(b, a, hash)
  }

  lemma PgNamesEqual(a: string, b: string, hash: string -> Hex8)
    requires LabelText(a) && LabelText(b)
    ensures TruncatePg(PgRaw(a), hash) == TruncatePg(PgRaw(b), hash) <==> PgSame(a, b, hash)
  {
    hide ReplacePg, LabelText;
    LabelPg(a);
    LabelPg(b);
    if |a| > 60 { CutOf(a, hash); }
    if |b| > 60 { CutOf(b, hash); }
    if |a| <= 60 && |b| <= 60 {
      if PgRaw(a) == PgRaw(b) { Behind("tn_", ReplacePg(a), ReplacePg(b)); }
      PgInjective(a, b);
    } else if |a| > 60 && |b| > 60 {
      var x, y := ReplacePg(a)[..51], ReplacePg(b)[..51];
      CutsEqual("tn_" + x, hash(PgRaw(a)), "tn_" + y, hash(PgRaw(b)), "_");
      if "tn_" + x == "tn_" + y { Behind("tn_", x, y); }
      PgPrefixes(a, b, 51);
    } else if |a| <= 60 {
      CutMeets(a, b, hash);
    } else {
      CutMeets(b, a, hash);
    }
  }

  lemma CutOf(long: string, hash: string -> Hex8)
    requires |ReplacePg(long)| > 60
    ensures TruncatePg(PgRaw(long), hash) == "tn_" + ReplacePg(long)[..51] + "_" + hash(PgRaw(long))
  {
    hide ReplacePg;
    assert PgRaw(long)[..54] == "tn_" + ReplacePg(long)[..51];
  }

  lemma CutMeets(short: string, long: string, hash: string -> Hex8)
    requires |ReplacePg(short)| <= 60 < |ReplacePg(long)|
    ensures TruncatePg(PgRaw(short), hash) == TruncatePg(PgRaw(long), hash) <==> PosesAsCut(short, long, hash)
  {
    hide ReplacePg;
    CutOf(long, hash);
    var tail := ReplacePg(long)[..51] + "_" + hash(PgRaw(long));
    assert "tn_" + ReplacePg(long)[..51] + "_" + hash(PgRaw(long)) == "tn_" + tail;
    if PgRaw(short) == "tn_" + tail { Behind("tn_", ReplacePg(short), tail); }
  }

  // ----- tenants in Postgres -----

  /** The text the Postgres names of a tenant are made of. */
  function Tenant(ns: string, wf: string): string {
    ns + "-" + wf
  }

  lemma TenantRaw(ns: string, wf: string)
    ensures "tn_" + ReplacePg(ns) + "_" + ReplacePg(wf) == PgRaw(Tenant(ns, wf))
    ensures "tn_" + ReplacePg(ns) + "_" + ReplacePg(wf) + "_policy" == PgRaw(Tenant(ns, wf) + "-" + "policy")
  {
    hide ReplacePg;
    ReplaceHyphenated(ns, wf);
    ReplaceHyphenated(Tenant(ns, wf), "policy");
    PolicyPg();
    var t := ReplacePg(ns) + "_" + ReplacePg(wf);
    assert "tn_" + ReplacePg(ns) + "_" + ReplacePg(wf) == "tn_" + t;
    assert "tn_" + t + "_policy" == "tn_" + (t + "_" + "policy");
  }

  lemma PolicyPg()
    ensures LabelText("policy") && ReplacePg("policy") == "policy"
  {
    hide ReplacePg;
    LabelPg("policy");
  }

  function FoldChar(c: char): char {
    var l := LowerChar(c);
    if l == '_' then '-' else l
  }

  /** What a Postgres name keeps of a text: lower case, underscores as hyphens, and nothing
      outside [a-z0-9-]. */
  function Fold(s: string): string {
    if s == [] then []
    else
      var c := FoldChar(s[0]);
      (if Alnum(c) || c == '-' then [c] else []) + Fold(s[1..])
  }

  lemma FoldedChar(x: char)
    ensures var c := FoldChar(x);
            && (Alnum(c) || c == '-' <==> PgChar(PgMap(x)))
            && (Alnum(c) || c == '-' ==> PgMap(c) == PgMap(x))
            && (Alnum(x) || x == '-' ==> c == x)
  {
  }

  lemma {:induction false} FoldPg(s: string)
    ensures LabelText(Fold(s)) && ReplacePg(Fold(s)) == ReplacePg(s)
    ensures LabelText(s) ==> Fold(s) == s
  {
    if s != [] {
      hide FoldChar, PgMap, PgChar, Alnum;
      var c := FoldChar(s[0]);
      FoldedChar(s[0]);
      FoldPg(s[1..]);
      if Alnum(c) || c == '-' {
        assert Fold(s)[0] == c && Fold(s)[1..] == Fold(s[1..]);
      } else {
        assert Fold(s) == Fold(s[1..]);
      }
      assert LabelText(s) ==> s[0] in s && (forall x <- s[1..] :: x in s);
      assert [s[0]] + s[1..] == s;
    }
  }

  lemma {:induction false} FoldConcat(a: string, b: string)
    ensures Fold(a + b) == Fold(a) + Fold(b)
  {
    hide FoldChar, Alnum;
    if a == [] {
      assert a + b == b;
    } else {
      var c := FoldChar(a[0]);
      var first := if Alnum(c) || c == '-' then [c] else [];
      assert (a + b)[0] == a[0] && (a + b)[1..] == a[1..] + b;
      FoldConcat(a[1..], b);
      assert Fold(a + b) == first + Fold(a[1..] + b);
      assert Fold(a) == first + Fold(a[1..]);
    }
  }

  lemma {:induction false} FoldLower(s: string)
    ensures Fold(ToLower(s)) == Fold(s)
  {
    if s != [] {
      assert ToLower(s)[1..] == ToLower(s[1..]);
      FoldLower(s[1..]);
    }
  }

  /** What Postgres sees of a tenant. */
  function Folded(ns: string, wf: string): string {
    Tenant(Fold(ns), Fold(wf))
  }

  lemma FoldedLabel(ns: string, wf: string)
    ensures LabelText(Folded(ns, wf)) && LabelText(Folded(ns, wf) + "-policy")
  {
    hide Fold;
    FoldPg(ns);
    FoldPg(wf);
    PolicyPg();
    assert "-policy" == "-" + "policy";
  }

  /** Exactly when two tenants share a role, and when they share a policy, for all names. */
  lemma RolesEqual(n1: string, w1: string, n2: string, w2: string, hash: string -> Hex8)
    requires CompileIdentity(n1, w1, hash).Ok? && CompileIdentity(n2, w2, hash).Ok?
    ensures LabelText(Folded(n1, w1)) && LabelText(Folded(n2, w2))
    ensures LabelText(Folded(n1, w1) + "-policy") && LabelText(Folded(n2, w2) + "-policy")
    ensures var x, y := CompileIdentity(n1, w1, hash).value, CompileIdentity(n2, w2, hash).value;
            && (x.pgRole == y.pgRole <==> PgSame(Folded(n1, w1), Folded(n2, w2), hash))
            && (x.s3Policy == y.s3Policy <==> PgSame(Folded(n1, w1) + "-policy", Folded(n2, w2) + "-policy", hash))
  {
    hide ReplacePg, TruncatePg, LabelText, PgSame, PgRaw, Fold;
    FoldedLabel(n1, w1);
    FoldedLabel(n2, w2);
    FoldPg(n1);
    FoldPg(w1);
    FoldPg(n2);
    FoldPg(w2);
    TenantRaw(Fold(n1), Fold(w1));
    TenantRaw(Fold(n2), Fold(w2));
    var t1, t2 := Folded(n1, w1), Folded(n2, w2);
    assert "-policy" == "-" + "policy";
    assert t1 + "-policy" == t1 + "-" + "policy" && t2 + "-policy" == t2 + "-" + "policy";
    PgNamesEqual(t1, t2, hash);
    PgNamesEqual(t1 + "-policy", t2 + "-policy", hash);
  }

  /** Whether the Postgres names of a tenant fit without a cut, with `room` characters left for
      namespace and workflow: 59 in a role, 52 in a policy. */
  predicate Uncut(ns: string, wf: string, room: nat) {
    |Fold(ns)| + |Fold(wf)| <= room
  }

  /** Without a cut, the role, and for yet shorter names the policy, is shared exactly by tenants
      that read the same once folded and joined by a hyphen. */
  lemma ShortRolesEqual(n1: string, w1: string, n2: string, w2: string, hash: string -> Hex8)
    requires CompileIdentity(n1, w1, hash).Ok? && CompileIdentity(n2, w2, hash).Ok?
    ensures var x, y := CompileIdentity(n1, w1, hash).value, CompileIdentity(n2, w2, hash).value;
            var joined := Folded(n1, w1) == Folded(n2, w2);
            && (Uncut(n1, w1, 59) && Uncut(n2, w2, 59) ==> (x.pgRole == y.pgRole <==> joined))
            && (Uncut(n1, w1, 52) && Uncut(n2, w2, 52) ==> (x.s3Policy == y.s3Policy <==> joined))
  {
    hide CompileIdentity, LabelText, Fold;
    RolesEqual(n1, w1, n2, w2, hash);
    var t1, t2 := Folded(n1, w1), Folded(n2, w2);
    if t1 + "-policy" == t2 + "-policy" {
      assert (t1 + "-policy")[..|t1|] == t1 && (t2 + "-policy")[..|t2|] == t2;
    }
  }

  /** Names that are cut: shared exactly when the folded, joined names agree in 51 characters and
      the digests are equal. */
  lemma LongRolesEqual(n1: string, w1: string, n2: string, w2: string, hash: string -> Hex8)
    requires CompileIdentity(n1, w1, hash).Ok? && CompileIdentity(n2, w2, hash).Ok?
    ensures var x, y := CompileIdentity(n1, w1, hash).value, CompileIdentity(n2, w2, hash).value;
            var t1, t2 := Folded(n1, w1), Folded(n2, w2);
            && (!Uncut(n1, w1, 59) && !Uncut(n2, w2, 59) ==>
                  (x.pgRole == y.pgRole <==> t1[..51] == t2[..51] && hash(PgRaw(t1)) == hash(PgRaw(t2))))
            && (!Uncut(n1, w1, 52) && !Uncut(n2, w2, 52) ==>
                  (x.s3Policy == y.s3Policy <==>
                   t1[..51] == t2[..51] && hash(PgRaw(t1 + "-policy")) == hash(PgRaw(t2 + "-policy"))))
  {
    hide CompileIdentity, LabelText, PgRaw, Fold;
    RolesEqual(n1, w1, n2, w2, hash);
    var t1, t2 := Folded(n1, w1), Folded(n2, w2);
    if |t1| > 51 && |t2| > 51 {
      assert (t1 + "-policy")[..51] == t1[..51] && (t2 + "-policy")[..51] == t2[..51];
    }
  }

  /** What a caller can check: in one namespace, or in namespaces without hyphens and underscores,
      uncut names are shared exactly by tenants whose names fold to the same. */
  lemma RolesApart(n1: string, w1: string, n2: string, w2: string, hash: string -> Hex8)
    requires CompileIdentity(n1, w1, hash).Ok? && CompileIdentity(n2, w2, hash).Ok?
    requires n1 == n2 || ('-' !in Fold(n1) && '-' !in Fold(n2))
    ensures var x, y := CompileIdentity(n1, w1, hash).value, CompileIdentity(n2, w2, hash).value;
            var same := Fold(n1) == Fold(n2) && Fold(w1) == Fold(w2);
            && (Uncut(n1, w1, 59) && Uncut(n2, w2, 59) ==> (x.pgRole == y.pgRole <==> same))
            && (Uncut(n1, w1, 52) && Uncut(n2, w2, 52) ==> (x.s3Policy == y.s3Policy <==> same))
  {
    hide CompileIdentity, Fold;
    ShortRolesEqual(n1, w1, n2, w2, hash);
    if Folded(n1, w1) == Folded(n2, w2) {
      if n1 == n2 {
        Behind(Fold(n1) + "-", Fold(w1), Fold(w2));
      } else {
        FirstSeparator(Fold(n1), Fold(w1), Fold(n2), Fold(w2), '-');
      }
    }
  }

  /** On names over [a-z0-9-], which namespaces always are, folding changes nothing: then tenants
      of one namespace share an uncut role exactly if they are the same. */
  lemma LabelRolesApart(ns: string, w1: string, w2: string, hash: string -> Hex8)
    requires CompileIdentity(ns, w1, hash).Ok? && CompileIdentity(ns, w2, hash).Ok?
    requires LabelText(ns) && LabelText(w1) && LabelText(w2)
    requires |ns| + |w1| <= 59 && |ns| + |w2| <= 59
    ensures CompileIdentity(ns, w1, hash).value.pgRole == CompileIdentity(ns, w2, hash).value.pgRole <==> w1 == w2
  {
    hide CompileIdentity, Fold, LabelText;
    FoldPg(ns);
    FoldPg(w1);
    FoldPg(w2);
    RolesApart(ns, w1, ns, w2, hash);
  }

  /** Workflow names that the server accepts as different share role and policy, at any length:
      letter case does not count, an underscore is a hyphen, and a dot is nothing. */
  lemma FoldedRolesCollide(ns: string, a: string, b: string, hash: string -> Hex8)
    requires ns != "" && a + b != ""
    ensures var x := CompileIdentity(ns, a + b, hash);
            && x.Ok?
            && SameRoles(x, CompileIdentity(ns, ToLower(a + b), hash))
            && SameRoles(x, CompileIdentity(ns, a + "." + b, hash))
            && SameRoles(CompileIdentity(ns, a + "_" + b, hash), CompileIdentity(ns, a + "-" + b, hash))
  {
    hide CompileIdentity, Fold, ToLower;
    FoldLower(a + b);
    FoldConcat(a, b);
    FoldConcat(a + ".", b);
    FoldConcat(a, ".");
    FoldConcat(a + "_", b);
    FoldConcat(a, "_");
    FoldConcat(a + "-", b);
    FoldConcat(a, "-");
    FoldMarks();
    assert Fold(a) + "" == Fold(a);
    LowerEmpty(a + b);
    FoldDecides(ns, a + b, ToLower(a + b), hash);
    FoldDecides(ns, a + b, a + "." + b, hash);
    FoldDecides(ns, a + "_" + b, a + "-" + b, hash);
  }

  predicate SameRoles(x: Result<Identity, IdentityError>, y: Result<Identity, IdentityError>) {
    x.Ok? && y.Ok? && x.value.pgRole == y.value.pgRole && x.value.s3Policy == y.value.s3Policy
  }

  lemma FoldDecides(ns: string, w1: string, w2: string, hash: string -> Hex8)
    requires ns != "" && w1 != "" && w2 != "" && Fold(w1) == Fold(w2)
    ensures SameRoles(CompileIdentity(ns, w1, hash), CompileIdentity(ns, w2, hash))
  {
    hide ReplacePg, TruncatePg, Fold;
    FoldPg(w1);
    FoldPg(w2);
  }

  lemma FoldMarks()
    ensures Fold(".") == "" && Fold("_") == "-" && Fold("-") == "-"
  {
    assert "."[1..] == "" && "_"[1..] == "" && "-"[1..] == "";
  }

  // ----- enclaves -----

  /** Valid enclave names never share a NATS account; up to 60 characters never a database; up
      to 52 never a bucket; and databases and buckets always fit 63 characters. */
  lemma EnclavesApart(a: string, b: string, hash: string -> Hex8)
    requires CompileEnclaveIdentity(a, hash).Ok? && CompileEnclaveIdentity(b, hash).Ok? && a != b
    ensures var x, y := CompileEnclaveIdentity(a, hash).value, CompileEnclaveIdentity(b, hash).value;
            && x.natsAcct != y.natsAcct
            && (|a| <= 60 && |b| <= 60 ==> x.pgDb != y.pgDb)
            && (|a| <= 52 && |b| <= 52 ==> x.s3Bucket != y.s3Bucket)
            && PgName(x.pgDb) && |x.s3Bucket| <= MAX_BUCKET
  {
    hide PgName, Alnum, ReplacePg, TruncatePg, PosesAsCut;
    ReplacePgChars(a);
    PgLiterals();
    TruncatePgName(PgRaw(a), hash);
    PgNamesEqual(a, b, hash);
    if "tentacular." + a == "tentacular." + b { Behind("tentacular.", a, b); }
    if "tentacular-" + a == "tentacular-" + b { Behind("tentacular-", a, b); }
  }

  /** Beyond 60 characters a database name keeps 54 characters and a digest: two long names
      collide exactly when both agree. */
  lemma LongDatabases(a: string, b: string, hash: string -> Hex8)
    requires CompileEnclaveIdentity(a, hash).Ok? && CompileEnclaveIdentity(b, hash).Ok?
    requires |a| > 60 && |b| > 60
    ensures CompileEnclaveIdentity(a, hash).value.pgDb == CompileEnclaveIdentity(b, hash).value.pgDb <==>
            a[..51] == b[..51] && hash(PgRaw(a)) == hash(PgRaw(b))
  {
    hide Alnum, ReplacePg, TruncatePg;
    PgNamesEqual(a, b, hash);
  }

  /** Enclave names as the services see them: the account and a short bucket hold the name as it is,
      and every bucket name stays within lower-case letters, digits and hyphens. */
  lemma EnclaveNames(a: string, hash: string -> Hex8)
    requires CompileEnclaveIdentity(a, hash).Ok?
    ensures var id := CompileEnclaveIdentity(a, hash).value;
            && id.enclave == a
            && Split(id.natsAcct, '.') == ["tentacular", a]
            && (|a| <= 52 ==> Split(id.s3Bucket, '-') == ["tentacular"] + Split(a, '-'))
            && (forall c <- id.s3Bucket :: 'a' <= c <= 'z' || '0' <= c <= '9' || c == '-')
  {
    hide ReplacePg, TruncatePg, Split;
    var id := CompileEnclaveIdentity(a, hash).value;
    assert "tentacular." == "tentacular" + ['.'] && "tentacular-" == "tentacular" + ['-'];
    NoMarks("tentacular");
    SplitCons("tentacular", a, '.');
    SplitOne(a, '.');
    SplitCons("tentacular", a, '-');
    BucketChars(a, hash);
  }

  lemma NoMarks(s: string)
    requires s == "tentacular"
    ensures '.' !in s && '-' !in s && forall c <- s :: 'a' <= c <= 'z'
  {
  }

  lemma BucketChars(a: string, hash: string -> Hex8)
    requires DnsLabel(a)
    ensures forall c <- TruncateS3Bucket("tentacular-" + a, hash) :: 'a' <= c <= 'z' || '0' <= c <= '9' || c == '-'
  {
    var raw := "tentacular-" + a;
    assert raw == "tentacular" + "-" + a;
    NoMarks("tentacular");
    assert forall c <- raw :: 'a' <= c <= 'z' || '0' <= c <= '9' || c == '-';
    var h: string := hash(raw);
    forall c | c in TruncateS3Bucket(raw, hash) ensures 'a' <= c <= 'z' || '0' <= c <= '9' || c == '-' {
      assert c in raw || c == '-' || c in h;
    }
  }

  function BucketRaw(enclave: string): string {
    "tentacular-" + enclave
  }

  /** Beyond 52 characters a bucket name keeps 43 characters of the enclave and a digest: two long
      names collide exactly when both agree. */
  lemma LongBuckets(a: string, b: string, hash: string -> Hex8)
    requires CompileEnclaveIdentity(a, hash).Ok? && CompileEnclaveIdentity(b, hash).Ok?
    requires |a| > 52 && |b| > 52
    ensures CompileEnclaveIdentity(a, hash).value.s3Bucket == CompileEnclaveIdentity(b, hash).value.s3Bucket <==>
            a[..43] == b[..43] && hash(BucketRaw(a)) == hash(BucketRaw(b))
  {
    hide Alnum, ReplacePg, TruncatePg;
    var p := "tentacular-";
    CutsEqual(p + a[..43], hash(BucketRaw(a)), p + b[..43], hash(BucketRaw(b)), "-");
    assert BucketRaw(a)[..54] == p + a[..43] && BucketRaw(b)[..54] == p + b[..43];
    if p + a[..43] == p + b[..43] { Behind(p, a[..43], b[..43]); }
  }

  // ----- enclave names -----

  /** `^[a-z0-9]([a-z0-9-]{0,61}[a-z0-9])?$`, read off the expression. */
  ghost predicate InLabelLanguage(name: string) {
    || (|name| == 1 && Alnum(name[0]))
    || exists a: char, mid: string, z: char ::
         name == [a] + mid + [z] && Alnum(a) && Alnum(z) && |mid| <= 61 && LabelText(mid)
  }

  lemma LabelInLanguage(name: string)
    requires DnsLabel(name)
    ensures InLabelLanguage(name) && '.' !in name
  {
    hide Alnum;
    NoDot();
    if |name| > 1 {
      var mid := name[1..|name| - 1];
      assert LabelText(mid) by { assert forall c <- mid :: c in name; }
      hide LabelText, DnsLabel;
      assert name == [name[0]] + mid + [name[|name| - 1]];
    }
  }

  lemma LanguageIsLabel(name: string)
    requires InLabelLanguage(name)
    ensures DnsLabel(name)
  {
    hide Alnum;
    if !(|name| == 1 && Alnum(name[0])) {
      var a: char, mid: string, z: char :|
        name == [a] + mid + [z] && Alnum(a) && Alnum(z) && |mid| <= 61 && LabelText(mid);
      assert name[0] == a && name[|name| - 1] == z;
      forall c | c in name ensures Alnum(c) || c == '-' {
        assert c == a || c == z || c in mid;
      }
    }
  }

  lemma NoDot()
    ensures !Alnum('.')
  {
  }

  /** Both copies of the name check accept exactly the regular expression that documents them:
      the extra tests for an empty name and for dots exclude nothing more. */
  lemma NameChecksAgree(name: string)
    ensures ValidateName(name).None? <==> InLabelLanguage(name)
    ensures ValidEnclaveName(name) <==> InLabelLanguage(name)
  {
    hide InLabelLanguage;
    if DnsLabel(name) { LabelInLanguage(name); }
    if InLabelLanguage(name) { LanguageIsLabel(name); }
  }
}
