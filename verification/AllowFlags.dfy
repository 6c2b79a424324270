/** The permission flags of a workflow's Deno process (`pkg/exoskeleton/enrich.go`): the server
    appends service hosts to `--allow-net=` and telemetry variables to `--allow-env=`, in the
    argument list of the first container of a Deployment. */
module AllowFlags {
  import opened Wrappers
  import opened Text
  import opened Json

  datatype Kind = Net | Env

  datatype Patch = Patch(kind: Kind, items: seq<string>)

  const ARGS := "args"
  const COMMAND := "command"

  function Flag(k: Kind): string {
    if k.Net? then "--allow-net=" else "--allow-env="
  }

  // ----- one argument list -----

  function FlagIndex(args: seq<string>, k: Kind): (i: nat)
    ensures i <= |args|
    ensures i < |args| ==> Flag(k) <= args[i]
    ensures forall j :: 0 <= j < i ==> !(Flag(k) <= args[j])
  {
    if args == [] || Flag(k) <= args[0] then 0 else 1 + FlagIndex(args[1..], k)
  }

  predicate HasFlag(args: seq<string>, k: Kind) {
    FlagIndex(args, k) < |args|
  }

  /** The entries of a flag's value. */
  function Entries(k: Kind, value: string): seq<string> {
    if value == "" || (k.Net? && value == "none") then [] else Split(value, ',')
  }

  function Missing(items: seq<string>, present: seq<string>): seq<string> {
    if items == [] then []
    else
      var i := items[|items| - 1];
      Missing(items[..|items| - 1], present) + if i in present then [] else [i]
  }

  /** What a patch adds: hosts are always appended, variables only when they are not listed yet. */
  function Added(p: Patch, present: seq<string>): seq<string> {
    if p.kind.Net? then p.items else Missing(p.items, present)
  }

  function Appended(k: Kind, value: string, more: seq<string>): string {
    if Entries(k, value) == [] then Join(more, ",") else value + "," + Join(more, ",")
  }

  /** The list after the patch, if the patch applies. */
  function PatchSlice(args: seq<string>, p: Patch): Option<seq<string>> {
    var i := FlagIndex(args, p.kind);
    if i == |args| then None
    else
      var value := args[i][|Flag(p.kind)|..];
      var more := Added(p, Entries(p.kind, value));
      if p.kind.Env? && more == [] then None
      else Some(args[i := Flag(p.kind) + Appended(p.kind, value, more)])
  }

  /** What the process is granted: the entries of the first flag. */
  function Granted(args: seq<string>, k: Kind): seq<string> {
    var i := FlagIndex(args, k);
    if i == |args| then [] else Entries(k, args[i][|Flag(k)|..])
  }

  /** Something to add, none of it empty, holding a comma, or reading as no host at all. */
  ghost predicate PlainItems(p: Patch) {
    p.items != [] && forall x <- p.items :: ',' !in x && x != "" && x != "none"
  }

  lemma {:induction false} MissingMembers(items: seq<string>, present: seq<string>)
    ensures forall x :: x in Missing(items, present) <==> x in items && x !in present
    ensures (forall x <- items :: x in present) ==> Missing(items, present) == []
  {
    if items != [] {
      MissingMembers(items[..|items| - 1], present);
      assert items == items[..|items| - 1] + [items[|items| - 1]];
    }
  }

  lemma EntriesAppended(k: Kind, value: string, more: seq<string>)
    requires more != [] && forall x <- more :: ',' !in x && x != "" && x != "none"
    ensures Entries(k, Appended(k, value, more)) == Entries(k, value) + more
  {
    hide Split, Join;
    SplitJoin(more, ',');
    var j := Join(more, ",");
    assert j == Join(more, [',']);
    if Entries(k, value) == [] {
      SplitOne("", ',');
      SplitOne("none", ',');
      assert more[0] != "" && more[0] != "none";
      assert j != "" && j != "none";
    } else {
      assert value + "," + j == value + [','] + j;
      assert (value + "," + j)[|value|] == ',';
      SplitAppend(value, j, ',');
    }
  }

  /** A patch grants exactly what it adds, at the end, and changes nothing but the value of the
      first flag of its kind. It applies to every list with that flag, unless it is for
      variables that are all granted. */
  lemma PatchGrants(args: seq<string>, p: Patch)
    requires PlainItems(p)
    ensures PatchSlice(args, p).Some? <==> HasFlag(args, p.kind) && Added(p, Granted(args, p.kind)) != []
    ensures PatchSlice(args, p).Some? ==>
              var r := PatchSlice(args, p).value;
              var i := FlagIndex(args, p.kind);
              && |r| == |args| && (forall j :: 0 <= j < |args| && j != i ==> r[j] == args[j])
              && FlagIndex(r, p.kind) == i
              && Granted(r, p.kind) == Granted(args, p.kind) + Added(p, Granted(args, p.kind))
              && forall k :: k != p.kind ==> HasFlag(r, k) == HasFlag(args, k) && Granted(r, k) == Granted(args, k)
  {
    hide Entries, Appended, Missing;
    var k := p.kind;
    var i := FlagIndex(args, k);
    if PatchSlice(args, p).Some? {
      var value := args[i][|Flag(k)|..];
      var more := Added(p, Entries(k, value));
      MissingMembers(p.items, Entries(k, value));
      EntriesAppended(k, value, more);
      var r := PatchSlice(args, p).value;
      assert r[i][|Flag(k)|..] == Appended(k, value, more);
      FirstFlag(r, k, i);
      OtherFlag(args, k, i, Appended(k, value, more));
    }
  }

  lemma FirstFlag(args: seq<string>, k: Kind, i: nat)
    requires i < |args| && Flag(k) <= args[i] && forall j :: 0 <= j < i ==> !(Flag(k) <= args[j])
    ensures FlagIndex(args, k) == i
  {
  }

  /** Rewriting a flag of one kind does not move the first flag of another. */
  lemma OtherFlag(args: seq<string>, k: Kind, i: nat, value: string)
    requires i < |args| && Flag(k) <= args[i]
    ensures forall q :: q != k ==> FlagIndex(args[i := Flag(k) + value], q) == FlagIndex(args, q) != i
  {
    hide Flag;
    var r := args[i := Flag(k) + value];
    forall q | q != k ensures FlagIndex(r, q) == FlagIndex(args, q) && FlagIndex(args, q) != i {
      KindsDiffer(args[i], k, q);
      KindsDiffer(r[i], k, q);
      SameIndex(args, r, i, q);
    }
  }

  lemma SameIndex(args: seq<string>, r: seq<string>, i: nat, q: Kind)
    requires i < |args| == |r| && forall j :: 0 <= j < |args| && j != i ==> r[j] == args[j]
    requires !(Flag(q) <= args[i]) && !(Flag(q) <= r[i])
    ensures FlagIndex(r, q) == FlagIndex(args, q) != i
  {
    hide Flag;
    var a, b := FlagIndex(args, q), FlagIndex(r, q);
    assert a < |args| ==> r[a] == args[a];
    assert b < |args| ==> r[b] == args[b];
  }

  lemma KindsDiffer(s: string, k: Kind, q: Kind)
    requires Flag(k) <= s && q != k
    ensures !(Flag(q) <= s)
  {
    assert "--allow-net="[8] == 'n' && "--allow-env="[8] == 'e';
    assert s[8] == Flag(k)[8];
  }

  // ----- one container -----

  predicate AllStrings(xs: seq<Json>) {
    forall x <- xs :: x.Str?
  }

  /** `toStringSlice`. */
  function Strings(v: Json): Option<seq<string>> {
    if v.Arr? && AllStrings(v.items) then Some(seq(|v.items|, i requires 0 <= i < |v.items| => v.items[i].s)) else None
  }

  function FromStrings(args: seq<string>): Json {
    Arr(seq(|args|, i requires 0 <= i < |args| => Str(args[i])))
  }

  function FieldStrings(c: Json, field: string): Option<seq<string>> {
    if c.Obj? && field in c.fields then Strings(c.fields[field]) else None
  }

  predicate Applies(c: Json, field: string, p: Patch) {
    FieldStrings(c, field).Some? && PatchSlice(FieldStrings(c, field).value, p).Some?
  }

  function PatchField(c: Json, field: string, p: Patch): Json
    requires Applies(c, field, p)
  {
    Obj(c.fields[field := FromStrings(PatchSlice(FieldStrings(c, field).value, p).value)])
  }

  /** The arguments if the patch applies to them, otherwise the command. */
  function PatchFirst(c: Json, p: Patch): (r: Json)
    ensures c.Obj? ==> r.Obj?
  {
    if Applies(c, ARGS, p) then PatchField(c, ARGS, p)
    else if Applies(c, COMMAND, p) then PatchField(c, COMMAND, p)
    else c
  }

  predicate AppliesFirst(c: Json, p: Patch) {
    Applies(c, ARGS, p) || Applies(c, COMMAND, p)
  }

  function FieldGrants(c: Json, field: string, k: Kind): seq<string> {
    if FieldStrings(c, field).Some? then Granted(FieldStrings(c, field).value, k) else []
  }

  predicate FieldHasFlag(c: Json, field: string, k: Kind) {
    FieldStrings(c, field).Some? && HasFlag(FieldStrings(c, field).value, k)
  }

  method ToStringSlice(v: Json) returns (r: Option<seq<string>>)
    ensures r == Strings(v)
  {
    if !v.Arr? {
      return None;
    }
    var out: seq<string> := [];
    for i := 0 to |v.items|
      invariant |out| == i && forall j :: 0 <= j < i ==> v.items[j] == Str(out[j])
    {
      assert v.items[i] in v.items;
      if !v.items[i].Str? {
        return None;
      }
      out := out + [v.items[i].s];
    }
    assert AllStrings(v.items);
    assert out == Strings(v).value;
    r := Some(out);
  }

  lemma MissingSnoc(items: seq<string>, i: nat, present: seq<string>)
    requires i < |items|
    ensures Missing(items[..i + 1], present) ==
              Missing(items[..i], present) + if items[i] in present then [] else [items[i]]
  {
    assert items[..i + 1][..i] == items[..i];
  }

  /** `patchAllowEnvInSlice`. */
  method PatchAllowEnvInSlice(c: Json, field: string, vars: seq<string>) returns (r: Json, patched: bool)
    ensures var p := Patch(Env, vars);
            patched == Applies(c, field, p) && r == if patched then PatchField(c, field, p) else c
  {
    hide Strings, Split, Join;
    r, patched := c, false;
    if !c.Obj? || field !in c.fields {
      return;
    }
    var slice := ToStringSlice(c.fields[field]);
    if slice.None? {
      return;
    }
    var args := slice.value;
    for i := 0 to |args|
      invariant forall j :: 0 <= j < i ==> !(Flag(Env) <= args[j])
    {
      if !(Flag(Env) <= args[i]) {
        continue;
      }
      FirstFlag(args, Env, i);
      var existing := args[i][|Flag(Env)|..];
      var present := if existing == "" then [] else Split(existing, ',');
      var toAdd := [];
      for j := 0 to |vars|
        invariant toAdd == Missing(vars[..j], present)
      {
        MissingSnoc(vars, j, present);
        if vars[j] !in present {
          toAdd := toAdd + [vars[j]];
        }
      }
      assert vars[..|vars|] == vars;
      if toAdd == [] {
        return;
      }
      if existing == "" {
        args := args[i := Flag(Env) + Join(toAdd, ",")];
      } else {
        assert args[i] == Flag(Env) + existing;
        assert args[i] + "," + Join(toAdd, ",") == Flag(Env) + (existing + "," + Join(toAdd, ","));
        args := args[i := args[i] + "," + Join(toAdd, ",")];
      }
      r, patched := Obj(c.fields[field := FromStrings(args)]), true;
      return;
    }
  }

  /** `patchAllowNetInSlice`. */
  method PatchAllowNetInSlice(c: Json, field: string, hosts: seq<string>) returns (r: Json, patched: bool)
    ensures var p := Patch(Net, hosts);
            patched == Applies(c, field, p) && r == if patched then PatchField(c, field, p) else c
  {
    hide Strings, Split, Join;
    r, patched := c, false;
    if !c.Obj? || field !in c.fields {
      return;
    }
    var slice := ToStringSlice(c.fields[field]);
    if slice.None? {
      return;
    }
    var args := slice.value;
    for i := 0 to |args|
      invariant forall j :: 0 <= j < i ==> !(Flag(Net) <= args[j])
    {
      if !(Flag(Net) <= args[i]) {
        continue;
      }
      FirstFlag(args, Net, i);
      var existing := args[i][|Flag(Net)|..];
      if existing == "" || existing == "none" {
        args := args[i := Flag(Net) + Join(hosts, ",")];
      } else {
        assert args[i] == Flag(Net) + existing;
        assert args[i] + "," + Join(hosts, ",") == Flag(Net) + (existing + "," + Join(hosts, ","));
        args := args[i := args[i] + "," + Join(hosts, ",")];
      }
      r, patched := Obj(c.fields[field := FromStrings(args)]), true;
      return;
    }
  }

  lemma StringsBack(args: seq<string>)
    ensures Strings(FromStrings(args)) == Some(args)
  {
    var v := FromStrings(args);
    assert AllStrings(v.items);
    assert Strings(v).value == args;
  }

  /** The field a patch goes to, if any. */
  function TargetField(c: Json, p: Patch): Option<string> {
    if Applies(c, ARGS, p) then Some(ARGS) else if Applies(c, COMMAND, p) then Some(COMMAND) else None
  }

  /** Which grants a patch of the container changes: those of its own kind in its target field. */
  lemma PatchFirstGrants(c: Json, p: Patch, field: string, k: Kind)
    requires PlainItems(p)
    ensures var r := PatchFirst(c, p);
            && FieldHasFlag(r, field, k) == FieldHasFlag(c, field, k)
            && var was := FieldGrants(c, field, k);
               FieldGrants(r, field, k) ==
               if TargetField(c, p) == Some(field) && k == p.kind then was + Added(p, was) else was
  {
    hide Strings, FromStrings, PatchSlice, Granted, HasFlag, Added;
    var t := TargetField(c, p);
    if t.Some? {
      var args := FieldStrings(c, t.value).value;
      PatchGrants(args, p);
      StringsBack(PatchSlice(args, p).value);
      assert PatchFirst(c, p) == PatchField(c, t.value, p);
      if k == p.kind { KeepsFlag(args, p); }
    }
  }

  lemma KeepsFlag(args: seq<string>, p: Patch)
    requires PlainItems(p) && PatchSlice(args, p).Some?
    ensures HasFlag(args, p.kind) && HasFlag(PatchSlice(args, p).value, p.kind)
  {
    hide Added, Granted;
    PatchGrants(args, p);
  }

  // ----- telemetry -----

  const OTEL_VARS: seq<string> := [
    "OTEL_DENO", "OTEL_EXPORTER_OTLP_ENDPOINT", "OTEL_EXPORTER_OTLP_PROTOCOL",
    "OTEL_RESOURCE_ATTRIBUTES", "OTEL_SERVICE_NAME"]
  const COLLECTOR := "otel-collector." + "tentacular-observability." + "svc.cluster.local" + ":4318"

  const OTEL_ENV := Patch(Env, OTEL_VARS)
  const OTEL_NET := Patch(Net, [COLLECTOR])

  function WithTelemetry(c: Json): Json {
    PatchFirst(PatchFirst(c, OTEL_ENV), OTEL_NET)
  }

  lemma TelemetryIsPlain()
    ensures PlainItems(OTEL_ENV) && PlainItems(OTEL_NET)
  {
    CollectorIsPlain();
    var xs := OTEL_VARS;
    assert xs[0][0] == xs[1][0] == xs[2][0] == xs[3][0] == xs[4][0] == 'O' && "none"[0] == 'n';
    assert ',' !in xs[0] && ',' !in xs[1] && ',' !in xs[2] && ',' !in xs[3] && ',' !in xs[4];
  }

  lemma CollectorIsPlain()
    ensures ',' !in COLLECTOR && COLLECTOR != "" && COLLECTOR != "none"
  {
    var a, b, c := "otel-collector.", "tentacular-observability.", "svc.cluster.local";
    assert a[0] == 'o' && "none"[0] == 'n';
    assert ',' !in a;
    assert ',' !in b;
    assert ',' !in c;
  }

  /** A patch applies to a field exactly when the field has its flag and something to add. */
  lemma FieldApplies(c: Json, field: string, p: Patch)
    requires PlainItems(p)
    ensures Applies(c, field, p) <==> FieldHasFlag(c, field, p.kind) && Added(p, FieldGrants(c, field, p.kind)) != []
  {
    hide Strings, PatchSlice, Granted, HasFlag, Added;
    if FieldStrings(c, field).Some? {
      PatchGrants(FieldStrings(c, field).value, p);
    }
  }

  /** Variables once added are not missing any more. */
  lemma NothingMissing(items: seq<string>, present: seq<string>)
    ensures Missing(items, present + Missing(items, present)) == []
  {
    var m := Missing(items, present);
    MissingMembers(items, present);
    MissingMembers(items, present + m);
  }

  /** How a second variable patch finds a field: only the field the first one went to is settled. */
  lemma EnvAgain(c: Json, field: string)
    ensures var r := PatchFirst(c, OTEL_ENV);
            Applies(r, field, OTEL_ENV) <==> Applies(c, field, OTEL_ENV) && TargetField(c, OTEL_ENV) != Some(field)
  {
    hide Applies, FieldHasFlag, FieldGrants, PatchFirst, Missing, PlainItems, OTEL_VARS;
    TelemetryIsPlain();
    var r := PatchFirst(c, OTEL_ENV);
    FieldApplies(c, field, OTEL_ENV);
    FieldApplies(r, field, OTEL_ENV);
    PatchFirstGrants(c, OTEL_ENV, field, Env);
    NothingMissing(OTEL_VARS, FieldGrants(c, field, Env));
  }

  /** The host patch settles nothing: it applies to the same fields again, and it never matters
      to the variables. */
  lemma NetAside(c: Json, field: string)
    ensures var r := PatchFirst(c, OTEL_NET);
            && (Applies(r, field, OTEL_ENV) <==> Applies(c, field, OTEL_ENV))
            && (Applies(r, field, OTEL_NET) <==> Applies(c, field, OTEL_NET))
    ensures Applies(PatchFirst(c, OTEL_ENV), field, OTEL_NET) <==> Applies(c, field, OTEL_NET)
  {
    hide Applies, FieldHasFlag, FieldGrants, PatchFirst, Missing, PlainItems, OTEL_VARS;
    TelemetryIsPlain();
    var r, e := PatchFirst(c, OTEL_NET), PatchFirst(c, OTEL_ENV);
    FieldApplies(c, field, OTEL_ENV);
    FieldApplies(r, field, OTEL_ENV);
    FieldApplies(c, field, OTEL_NET);
    FieldApplies(r, field, OTEL_NET);
    FieldApplies(e, field, OTEL_NET);
    PatchFirstGrants(c, OTEL_NET, field, Env);
    PatchFirstGrants(c, OTEL_NET, field, Net);
    PatchFirstGrants(c, OTEL_ENV, field, Net);
  }

  /** Where the telemetry patch is idempotent, as its comment promises for all containers: no
      `--allow-net=` flag, and not two `--allow-env=` flags that both miss a variable. */
  predicate SettlesAtOnce(c: Json) {
    && !Applies(c, ARGS, OTEL_NET) && !Applies(c, COMMAND, OTEL_NET)
    && !(Applies(c, ARGS, OTEL_ENV) && Applies(c, COMMAND, OTEL_ENV))
  }

  lemma TelemetryFields(c: Json, field: string)
    requires field in {ARGS, COMMAND}
    ensures var r := WithTelemetry(c);
            && (Applies(r, field, OTEL_NET) <==> Applies(c, field, OTEL_NET))
            && (Applies(r, field, OTEL_ENV) <==> Applies(c, field, OTEL_ENV) && TargetField(c, OTEL_ENV) != Some(field))
  {
    hide Applies, PatchFirst, OTEL_ENV, OTEL_NET, TargetField;
    EnvAgain(c, field);
    NetAside(c, field);
    NetAside(PatchFirst(c, OTEL_ENV), field);
  }

  /** The telemetry patch applied twice is the patch applied once exactly on those containers;
      on any other it grants the collector once more, or reaches the command as well. */
  lemma TelemetryTwice(c: Json)
    ensures WithTelemetry(WithTelemetry(c)) == WithTelemetry(c) <==> SettlesAtOnce(c)
    ensures SettlesAtOnce(c) <==> !AppliesFirst(WithTelemetry(c), OTEL_ENV) && !AppliesFirst(WithTelemetry(c), OTEL_NET)
  {
    hide Applies, PatchField, OTEL_ENV, OTEL_NET;
    TelemetryFields(c, ARGS);
    TelemetryFields(c, COMMAND);
    var r := WithTelemetry(c);
    if !SettlesAtOnce(c) {
      AppliedChanges(r);
    }
  }

  /** A container that either patch applies to is changed by the two together. */
  lemma AppliedChanges(c: Json)
    requires AppliesFirst(c, OTEL_ENV) || AppliesFirst(c, OTEL_NET)
    ensures WithTelemetry(c) != c
  {
    hide Applies, FieldHasFlag, FieldGrants, PatchFirst, PlainItems, Missing, OTEL_VARS;
    TelemetryIsPlain();
    var p := if AppliesFirst(c, OTEL_ENV) then OTEL_ENV else OTEL_NET;
    var field := TargetField(c, p).value;
    FieldApplies(c, field, p);
    PatchFirstGrants(c, OTEL_ENV, field, p.kind);
    PatchFirstGrants(PatchFirst(c, OTEL_ENV), OTEL_NET, field, p.kind);
    if p.kind.Net? {
      NetAside(c, ARGS);
      NetAside(c, COMMAND);
    }
  }

  /** The patch never takes a grant away, and as a set of granted hosts it is idempotent on
      every container. */
  lemma TelemetryGrants(c: Json, field: string, k: Kind)
    requires field in {ARGS, COMMAND}
    ensures FieldGrants(c, field, k) <= FieldGrants(WithTelemetry(c), field, k)
    ensures var r := WithTelemetry(c);
            forall x :: x in FieldGrants(WithTelemetry(r), field, Net) <==> x in FieldGrants(r, field, Net)
  {
    hide FieldHasFlag, FieldGrants, PatchFirst, PlainItems, Applies, Missing, OTEL_VARS;
    TelemetryIsPlain();
    var r := WithTelemetry(c);
    PatchFirstGrants(c, OTEL_ENV, field, k);
    PatchFirstGrants(PatchFirst(c, OTEL_ENV), OTEL_NET, field, k);
    PatchFirstGrants(PatchFirst(c, OTEL_ENV), OTEL_NET, field, Net);
    PatchFirstGrants(r, OTEL_ENV, field, Net);
    PatchFirstGrants(PatchFirst(r, OTEL_ENV), OTEL_NET, field, Net);
    forall f | f in {ARGS, COMMAND}
      ensures Applies(PatchFirst(r, OTEL_ENV), f, OTEL_NET) == Applies(PatchFirst(c, OTEL_ENV), f, OTEL_NET)
    {
      NetAside(r, f);
      NetAside(PatchFirst(c, OTEL_ENV), f);
    }
  }

  const EXAMPLE := Obj(map[ARGS := FromStrings(["--allow-net=none"])])

  /** A deploy that reuses a patched manifest lists the collector again. */
  lemma CollectorListedTwice()
    ensures FieldGrants(WithTelemetry(EXAMPLE), ARGS, Net) == [COLLECTOR]
    ensures FieldGrants(WithTelemetry(WithTelemetry(EXAMPLE)), ARGS, Net) == [COLLECTOR, COLLECTOR]
  {
    hide PatchFirst, FieldGrants, FieldHasFlag, PlainItems, COLLECTOR, OTEL_VARS, Applies;
    TelemetryIsPlain();
    ExampleFlag();
    var r := WithTelemetry(EXAMPLE);
    FieldApplies(EXAMPLE, ARGS, OTEL_NET);
    NetAside(EXAMPLE, ARGS);
    NetAside(PatchFirst(EXAMPLE, OTEL_ENV), ARGS);
    NetAside(r, ARGS);
    PatchFirstGrants(EXAMPLE, OTEL_ENV, ARGS, Net);
    PatchFirstGrants(PatchFirst(EXAMPLE, OTEL_ENV), OTEL_NET, ARGS, Net);
    PatchFirstGrants(r, OTEL_ENV, ARGS, Net);
    PatchFirstGrants(PatchFirst(r, OTEL_ENV), OTEL_NET, ARGS, Net);
  }

  lemma ExampleFlag()
    ensures FieldHasFlag(EXAMPLE, ARGS, Net) && FieldGrants(EXAMPLE, ARGS, Net) == []
  {
    hide Strings, FromStrings;
    var args := ["--allow-net=none"];
    StringsBack(args);
    assert args[0] == Flag(Net) + "none";
    assert args[0][|Flag(Net)|..] == "none";
    FirstFlag(args, Net, 0);
  }

  /** The arguments are tried before the command, and only one of them is rewritten. */
  lemma ArgsBeforeCommand(a: seq<string>, b: seq<string>, p: Patch)
    ensures var c := Obj(map["args" := FromStrings(a), "command" := FromStrings(b)]);
            PatchFirst(c, p) ==
            if PatchSlice(a, p).Some? then
              Obj(map["args" := FromStrings(PatchSlice(a, p).value), "command" := FromStrings(b)])
            else if PatchSlice(b, p).Some? then
              Obj(map["args" := FromStrings(a), "command" := FromStrings(PatchSlice(b, p).value)])
            else c
  {
    hide Strings, FromStrings, PatchSlice;
    assert |"args"| == 4 && |"command"| == 7;
    StringsBack(a);
    StringsBack(b);
    var f := map["args" := FromStrings(a), "command" := FromStrings(b)];
    assert FieldStrings(Obj(f), ARGS) == Some(a) && FieldStrings(Obj(f), COMMAND) == Some(b);
    if PatchSlice(a, p).Some? {
      var x := FromStrings(PatchSlice(a, p).value);
      assert f["args" := x] == map["args" := x, "command" := FromStrings(b)];
    } else if PatchSlice(b, p).Some? {
      var x := FromStrings(PatchSlice(b, p).value);
      assert f["command" := x] == map["args" := FromStrings(a), "command" := x];
    }
  }

  /** What a container is told to run: the arguments, flag by flag. */
  lemma TelemetryExample()
    ensures var args := ["run", "--allow-env=HOME", "--allow-net=localhost:8080", "main.ts"];
            WithTelemetry(Obj(map["args" := FromStrings(args)])) ==
            Obj(map["args" := FromStrings([
              "run",
              "--allow-env=HOME," + "OTEL_DENO," + "OTEL_EXPORTER_OTLP_ENDPOINT," + "OTEL_EXPORTER_OTLP_PROTOCOL," +
                "OTEL_RESOURCE_ATTRIBUTES," + "OTEL_SERVICE_NAME",
              "--allow-net=localhost:8080," + "otel-collector." + "tentacular-observability." +
                "svc.cluster.local" + ":4318",
              "main.ts"])])
  {
    hide Strings, FromStrings, COLLECTOR, OTEL_VARS, PatchSlice, Join, Flag;
    var args := ["run", "--allow-env=HOME", "--allow-net=localhost:8080", "main.ts"];
    var c := Obj(map["args" := FromStrings(args)]);
    var envs := Flag(Env) + ("HOME" + "," + Join(OTEL_VARS, ","));
    var nets := Flag(Net) + ("localhost:8080" + "," + COLLECTOR);
    var mid, last := args[1 := envs], args[1 := envs][2 := nets];
    ExampleEnv(args);
    ExampleNet(args, mid);
    StringsBack(args);
    StringsBack(mid);
    assert c.fields["args" := FromStrings(mid)] == map["args" := FromStrings(mid)];
    assert PatchFirst(c, OTEL_ENV) == Obj(map["args" := FromStrings(mid)]);
    assert map["args" := FromStrings(mid)]["args" := FromStrings(last)] == map["args" := FromStrings(last)];
    assert WithTelemetry(c) == Obj(map["args" := FromStrings(last)]);
    ExampleTexts();
    assert last == [args[0], envs, nets, args[3]];
  }

  lemma ExampleTexts()
    ensures Flag(Env) + ("HOME" + "," + Join(OTEL_VARS, ",")) ==
            "--allow-env=HOME," + "OTEL_DENO," + "OTEL_EXPORTER_OTLP_ENDPOINT," + "OTEL_EXPORTER_OTLP_PROTOCOL," +
              "OTEL_RESOURCE_ATTRIBUTES," + "OTEL_SERVICE_NAME"
    ensures Flag(Net) + ("localhost:8080" + "," + COLLECTOR) ==
            "--allow-net=localhost:8080," + "otel-collector." + "tentacular-observability." +
              "svc.cluster.local" + ":4318"
  {
    hide Join;
    var v := OTEL_VARS;
    FlagLiterals();
    VarLiterals();
    FiveJoined(v[0], v[1], v[2], v[3], v[4], v);
    Regroup(Flag(Env) + "HOME" + ",", v[0] + ",", v[1] + ",", v[2] + ",", v[3] + ",", v[4]);
    RegroupHead(Flag(Env), "HOME", ",", v[0] + "," + (v[1] + "," + (v[2] + "," + (v[3] + "," + v[4]))));
    RegroupHead(Flag(Net), "localhost:8080", ",", COLLECTOR);
    RegroupHost(Flag(Net) + "localhost:8080" + ",", "otel-collector.", "tentacular-observability.",
                "svc.cluster.local", ":4318");
  }

  lemma FlagLiterals()
    ensures "--allow-env=HOME," == Flag(Env) + "HOME" + ","
    ensures "--allow-net=localhost:8080," == Flag(Net) + "localhost:8080" + ","
  {
  }

  lemma VarLiterals()
    ensures "OTEL_DENO," == OTEL_VARS[0] + "," && "OTEL_EXPORTER_OTLP_ENDPOINT," == OTEL_VARS[1] + ","
    ensures "OTEL_EXPORTER_OTLP_PROTOCOL," == OTEL_VARS[2] + "," && "OTEL_RESOURCE_ATTRIBUTES," == OTEL_VARS[3] + ","
    ensures OTEL_VARS[4] == "OTEL_SERVICE_NAME" && |OTEL_VARS| == 5
  {
  }

  lemma Regroup(h: string, a: string, b: string, c: string, d: string, e: string)
    ensures h + a + b + c + d + e == h + (a + (b + (c + (d + e))))
  {
    assert h + a + b + c + d + e == h + a + b + c + (d + e);
    assert h + a + b + c + (d + e) == h + a + b + (c + (d + e));
  }

  lemma RegroupHead(f: string, v: string, sep: string, rest: string)
    ensures f + (v + sep + rest) == f + v + sep + rest
  {
  }

  lemma RegroupHost(h: string, a: string, b: string, c: string, d: string)
    ensures h + a + b + c + d == h + (a + b + c + d)
  {
  }

  lemma FiveJoined(a: string, b: string, c: string, d: string, e: string, v: seq<string>)
    requires v == [a, b, c, d, e]
    ensures Join(v, ",") == a + "," + (b + "," + (c + "," + (d + "," + e)))
  {
    assert v[1..] == [b, c, d, e] && v[1..][1..] == [c, d, e] && v[1..][1..][1..] == [d, e];
    assert [d, e][1..] == [e];
    assert Join([d, e], ",") == d + "," + e;
    assert Join([c, d, e], ",") == c + "," + (d + "," + e) by { assert [c, d, e][1..] == [d, e]; }
    assert Join([b, c, d, e], ",") == b + "," + (c + "," + (d + "," + e)) by { assert [b, c, d, e][1..] == [c, d, e]; }
  }

  lemma ExampleEnv(args: seq<string>)
    requires args == ["run", "--allow-env=HOME", "--allow-net=localhost:8080", "main.ts"]
    ensures PatchSlice(args, OTEL_ENV) == Some(args[1 := Flag(Env) + ("HOME" + "," + Join(OTEL_VARS, ","))])
  {
    hide OTEL_VARS;
    assert args[0][0] == 'r' && "--allow-env="[0] == '-';
    assert args[1] == Flag(Env) + "HOME" && args[1][|Flag(Env)|..] == "HOME";
    FirstFlag(args, Env, 1);
    SplitOne("HOME", ',');
    AllMissing();
  }

  lemma AllMissing()
    ensures Missing(OTEL_VARS, ["HOME"]) == OTEL_VARS && OTEL_VARS != []
  {
    var v := OTEL_VARS;
    assert "HOME"[0] == 'H' && v[0][0] == v[1][0] == v[2][0] == v[3][0] == v[4][0] == 'O';
    assert forall i :: 0 <= i < 5 ==> v[i] !in ["HOME"];
    NoneListed(v, ["HOME"]);
  }

  lemma {:induction false} NoneListed(items: seq<string>, present: seq<string>)
    requires forall i :: 0 <= i < |items| ==> items[i] !in present
    ensures Missing(items, present) == items
  {
    if items != [] {
      NoneListed(items[..|items| - 1], present);
      assert items == items[..|items| - 1] + [items[|items| - 1]];
    }
  }

  lemma ExampleNet(args: seq<string>, mid: seq<string>)
    requires args == ["run", "--allow-env=HOME", "--allow-net=localhost:8080", "main.ts"]
    requires mid == args[1 := Flag(Env) + ("HOME" + "," + Join(OTEL_VARS, ","))]
    ensures PatchSlice(mid, OTEL_NET) == Some(mid[2 := Flag(Net) + ("localhost:8080" + "," + COLLECTOR)])
  {
    hide OTEL_VARS, COLLECTOR, Split;
    assert mid[0][0] == 'r' && "--allow-net="[0] == '-';
    assert Flag(Env) <= mid[1];
    KindsDiffer(mid[1], Env, Net);
    assert mid[2] == Flag(Net) + "localhost:8080" && mid[2][|Flag(Net)|..] == "localhost:8080";
    FirstFlag(mid, Net, 2);
    assert "localhost:8080"[0] == 'l' && "none"[0] == 'n';
    assert Join([COLLECTOR], ",") == COLLECTOR;
  }

  // ----- manifests -----

  const CONTAINERS: Path := ["spec", "template", "spec", "containers"]

  predicate IsDeployment(m: Json) {
    KindOf(m) == "Deployment"
  }

  /** The first container of a Deployment, if there is one and it is an object. */
  function FirstContainer(m: Json): Option<Json> {
    match Lookup(m, CONTAINERS)
    case Some(Arr(cs)) => if IsDeployment(m) && cs != [] && cs[0].Obj? then Some(cs[0]) else None
    case _ => None
  }

  function WithContainer(m: Json, c: Json): Json
    requires FirstContainer(m).Some?
  {
    SetNested(m, Arr(Lookup(m, CONTAINERS).value.items[0 := c]), CONTAINERS)
  }

  function FirstDeployment(ms: seq<Json>): (i: nat)
    ensures i <= |ms|
    ensures i < |ms| ==> IsDeployment(ms[i])
    ensures forall j :: 0 <= j < i ==> !IsDeployment(ms[j])
  {
    if ms == [] || IsDeployment(ms[0]) then 0 else 1 + FirstDeployment(ms[1..])
  }

  function TelemetryPatched(m: Json): Json {
    match FirstContainer(m)
    case Some(c) => if WithTelemetry(c) == c then m else WithContainer(m, WithTelemetry(c))
    case None => m
  }

  /** `patchDeploymentOTelEnv`, on the first Deployment only. */
  function OTelManifests(ms: seq<Json>): seq<Json> {
    var i := FirstDeployment(ms);
    if i == |ms| then ms else ms[i := TelemetryPatched(ms[i])]
  }

  method PatchDeploymentOTelEnv(ms: seq<Json>) returns (r: seq<Json>)
    ensures r == OTelManifests(ms)
  {
    hide Lookup, SetNested, PatchField, Applies;
    for i := 0 to |ms|
      invariant forall j :: 0 <= j < i ==> !IsDeployment(ms[j])
    {
      if !IsDeployment(ms[i]) {
        continue;
      }
      assert FirstDeployment(ms) == i;
      var m := ms[i];
      var first := FirstContainer(m);
      if first.None? {
        assert ms[i := m] == ms;
        return ms;
      }
      var c := first.value;
      var env, net;
      c, env := PatchAllowEnvInSlice(c, ARGS, OTEL_VARS);
      if !env {
        c, env := PatchAllowEnvInSlice(c, COMMAND, OTEL_VARS);
      }
      assert c == PatchFirst(first.value, OTEL_ENV);
      if env {
        m := WithContainer(m, c);
        WithContainerBack(ms[i], c);
      }
      ghost var mid := c;
      c, net := PatchAllowNetInSlice(c, ARGS, [COLLECTOR]);
      if !net {
        c, net := PatchAllowNetInSlice(c, COMMAND, [COLLECTOR]);
      }
      assert c == PatchFirst(mid, OTEL_NET) == WithTelemetry(first.value);
      if net {
        if env { WithContainerTwice(ms[i], mid, c); }
        m := WithContainer(m, c);
      }
      if env || net {
        AppliedChanges(first.value) by { if !env { assert mid == first.value; } }
      } else {
        assert ms[i := m] == ms;
      }
      return ms[i := m];
    }
    return ms;
  }

  /** The container that is patched, and the one Deployment it is in. */
  lemma TelemetryPlace(ms: seq<Json>, i: nat)
    requires i < |ms|
    ensures |OTelManifests(ms)| == |ms|
    ensures OTelManifests(ms)[i] != ms[i] ==>
              && Lookup(ms[i], ["kind"]) == Some(Str("Deployment"))
              && (forall j :: 0 <= j < i ==> Lookup(ms[j], ["kind"]) != Some(Str("Deployment")))
              && Lookup(ms[i], ["spec", "template", "spec", "containers"]).Some?
              && Lookup(ms[i], ["spec", "template", "spec", "containers"]).value.Arr?
              && var cs := Lookup(ms[i], ["spec", "template", "spec", "containers"]).value.items;
                 && cs != []
                 && Lookup(OTelManifests(ms)[i], ["spec", "template", "spec", "containers"]) ==
                    Some(Arr(cs[0 := WithTelemetry(cs[0])]))
  {
    hide Lookup, SetNested, Settable, WithTelemetry;
    assert |"Deployment"| == 10;
    forall j | 0 <= j < |ms| ensures IsDeployment(ms[j]) <==> Lookup(ms[j], ["kind"]) == Some(Str("Deployment")) {
      DeploymentKind(ms[j]);
    }
    if OTelManifests(ms)[i] != ms[i] {
      var cs := Lookup(ms[i], CONTAINERS).value.items;
      LookupSettable(ms[i], CONTAINERS);
      SetLookup(ms[i], Arr(cs[0 := WithTelemetry(cs[0])]), CONTAINERS);
    }
  }

  lemma DeploymentKind(m: Json)
    ensures IsDeployment(m) <==> Lookup(m, ["kind"]) == Some(Str("Deployment"))
  {
    assert |"Deployment"| == 10;
  }

  lemma WithContainerBack(m: Json, c: Json)
    requires FirstContainer(m).Some? && c.Obj?
    ensures FirstContainer(WithContainer(m, c)) == Some(c)
    ensures IsDeployment(WithContainer(m, c))
  {
    hide Lookup, SetNested, Settable;
    var v := Arr(Lookup(m, CONTAINERS).value.items[0 := c]);
    LookupSettable(m, CONTAINERS);
    SetLookup(m, v, CONTAINERS);
    SetIndependent(m, v, CONTAINERS, ["kind"]);
  }

  lemma {:induction false} SetTwice(v: Json, x: Json, y: Json, path: Path)
    requires path != []
    ensures SetNested(SetNested(v, x, path), y, path) == SetNested(v, y, path)
    decreases |path|
  {
    if v.Obj? && |path| > 1 {
      var k := path[0];
      var child := if k in v.fields then v.fields[k] else EMPTY;
      SetTwice(child, x, y, path[1..]);
      if child.Obj? {
        SetObj(child, x, path[1..]);
        assert v.fields[k := SetNested(child, x, path[1..])][k := SetNested(child, y, path[1..])] ==
            v.fields[k := SetNested(child, y, path[1..])];
      }
    }
  }

  lemma WithContainerTwice(m: Json, a: Json, b: Json)
    requires FirstContainer(m).Some? && a.Obj? && b.Obj?
    ensures FirstContainer(WithContainer(m, a)) == Some(a)
    ensures WithContainer(WithContainer(m, a), b) == WithContainer(m, b)
  {
    hide Lookup, SetNested, Settable;
    var cs := Lookup(m, CONTAINERS).value.items;
    WithContainerBack(m, a);
    LookupSettable(m, CONTAINERS);
    SetLookup(m, Arr(cs[0 := a]), CONTAINERS);
    SetTwice(m, Arr(cs[0 := a]), Arr(cs[0 := b]), CONTAINERS);
    assert cs[0 := a][0 := b] == cs[0 := b];
  }

  predicate SettlesManifest(m: Json) {
    FirstContainer(m).Some? ==> SettlesAtOnce(FirstContainer(m).value)
  }

  lemma TelemetryPatchedTwice(m: Json)
    requires IsDeployment(m)
    ensures TelemetryPatched(TelemetryPatched(m)) == TelemetryPatched(m) <==> SettlesManifest(m)
    ensures IsDeployment(TelemetryPatched(m))
  {
    hide WithTelemetry, SettlesAtOnce, Lookup, SetNested, FirstContainer, WithContainer, IsDeployment;
    if FirstContainer(m).Some? {
      var c := FirstContainer(m).value;
      ContainerKinds(m);
      TelemetryTwice(c);
      TelemetryObj(c);
      TelemetryObj(WithTelemetry(c));
      WithContainerBack(m, WithTelemetry(c));
      var r := TelemetryPatched(m);
      assert FirstContainer(r) == Some(WithTelemetry(c));
      WithContainerBack(r, WithTelemetry(WithTelemetry(c)));
    }
  }

  /** On whole manifest lists, a second telemetry patch changes nothing exactly when the first
      container of the first Deployment settles at once, or there is none. */
  lemma OTelManifestsTwice(ms: seq<Json>)
    ensures var i := FirstDeployment(ms);
            OTelManifests(OTelManifests(ms)) == OTelManifests(ms) <==> (i < |ms| ==> SettlesManifest(ms[i]))
  {
    hide TelemetryPatched, SettlesManifest, IsDeployment;
    var i := FirstDeployment(ms);
    if i < |ms| {
      TelemetryPatchedTwice(ms[i]);
      var r := OTelManifests(ms);
      SameDeployment(ms, r, i);
      assert OTelManifests(r)[i] == TelemetryPatched(TelemetryPatched(ms[i]));
      assert OTelManifests(r) == r <==> OTelManifests(r)[i] == r[i];
    }
  }

  lemma ContainerKinds(m: Json)
    requires FirstContainer(m).Some?
    ensures FirstContainer(m).value.Obj? && IsDeployment(m)
  {
  }

  lemma TelemetryObj(c: Json)
    requires c.Obj?
    ensures WithTelemetry(c).Obj?
  {
    hide Applies;
  }

  lemma SameDeployment(ms: seq<Json>, r: seq<Json>, i: nat)
    requires i < |ms| == |r| && FirstDeployment(ms) == i && IsDeployment(r[i])
    requires forall j :: 0 <= j < i ==> r[j] == ms[j]
    ensures FirstDeployment(r) == i
  {
    hide IsDeployment;
  }
}
