/** Compiled identities in the NATS registry: each tenant's principal is granted the tenant's
    own subjects, and nothing else, whoever else registers. */
module Tenancy {
  import opened Wrappers
  import opened NatsAuthz
  import opened NatsRoundTrip
  import I = Identity
  import R = NatsRegistry

  /** Namespace and workflow names the registry text can hold. */
  predicate PlainName(s: string) {
    s != "" && Plain(s) && ',' !in s
  }

  function TenantId(ns: string, wf: string, hash: string -> I.Hex8): R.Identity
    requires ns != "" && wf != ""
  {
    var id := I.CompileIdentity(ns, wf, hash).value;
    R.Identity(id.principal, id.natsPrefix)
  }

  lemma PlainConcat(a: string, b: string)
    requires Plain(a) && Plain(b)
    ensures Plain(a + b)
  {
    forall c | c in a + b ensures PlainChar(c) {
      assert c in a || c in b;
    }
  }

  lemma LiteralsPlain()
    ensures Plain("spiffe://tentacular/ns/") && Plain("/tentacles/") && Plain("tentacular.") && Plain(".") &&
              Plain(".>")
    ensures ',' !in "tentacular." && ',' !in "." && ',' !in ".>"
  {
  }

  /** The identity of a plainly named tenant passes through the registry text unescaped. */
  lemma TenantIsClean(ns: string, wf: string, hash: string -> I.Hex8)
    requires PlainName(ns) && PlainName(wf)
    ensures R.CleanIdentity(TenantId(ns, wf, hash))
  {
    hide I.SanitizePg, I.TruncatePg, I.ReplacePg, PlainChar, Plain;
    LiteralsPlain();
    var p, t := "spiffe://tentacular/ns/", "/tentacles/";
    PlainConcat(p, ns);
    PlainConcat(p + ns, t);
    PlainConcat(p + ns + t, wf);
    PlainConcat("tentacular.", ns);
    PlainConcat("tentacular." + ns, ".");
    PlainConcat("tentacular." + ns + ".", wf);
    PlainConcat("tentacular." + ns + "." + wf, ".>");
  }

  /** Every completed call was made for some tenant. */
  ghost predicate TenantLog(log: seq<R.NatsEvent>, hash: string -> I.Hex8) {
    forall e <- log :: e.Done? &&
      exists n, w :: n != "" && w != "" && '/' !in n && e.req.id == TenantId(n, w, hash)
  }

  /** Whatever tenants registered and unregistered in whatever order, the permission recorded
      for a tenant's principal is exactly that tenant's subject prefix. */
  lemma OwnPrefixOnly(log: seq<R.NatsEvent>, ns: string, wf: string, hash: string -> I.Hex8)
    requires TenantLog(log, hash)
    requires ns != "" && wf != "" && '/' !in ns
    ensures var id := TenantId(ns, wf, hash);
            id.principal in R.Registered(log) ==>
              R.Registered(log)[id.principal] == R.Permission([id.natsPrefix], [id.natsPrefix])
  {
    hide I.SanitizePg, I.TruncatePg, I.ReplacePg;
    var id := TenantId(ns, wf, hash);
    if id.principal in R.Registered(log) {
      var k := R.RegisteredLatest(log, id.principal);
      assert log[k] in log;
      var n, w :| n != "" && w != "" && '/' !in n && log[k].req.id == TenantId(n, w, hash);
      I.PrincipalsDiffer(n, w, ns, wf, hash);
    }
  }
}
