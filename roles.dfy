/** The IAM steps of a unit's deployment: create_role, which makes sure the
    unit's execution role exists, and attach_policy, which attaches the common
    policies, keeps the unit's own managed policy at the given document and
    attaches it, and attaches the VPC access policy to a unit with a VPC. */
module Roles {

  import opened Wrappers
  import opened PolicyDoc
  import opened Cloud
  import opened Project
  import Convention

  /** create_role: the handle of the role the unit runs under (its name). In
      staging mode this is the shared staging role, which is not looked up. */
  function CreateRole(s: Setup, c: CloudState, name: string): (CloudState, Result<string>)
  {
    if s.staging then (c, Ok(StagingRole))
    else if c.LookupRole(name).Ok? then (c, Ok(name))
    else
      var (c1, r) := c.CreateRole(name, AssumeRolePolicyDoc());
      (c1, if r.Ok? then Ok(name) else Err(r.error))
  }

  /** Outside staging mode the unit gets a role of its own name, created with
      the function-service trust policy when it is missing; an existing role is
      left as it is, so a second call changes nothing. */
  lemma CreateRoleOutcome(s: Setup, c: CloudState, name: string)
    requires !s.staging
    ensures var (c1, r) := CreateRole(s, c, name);
      && r == Ok(name)
      && name in c1.roles
      && c1 == c.(roles := if name in c.roles then c.roles else c.roles[name := AssumeRolePolicyDoc()])
      && CreateRole(s, c1, name) == (c1, r)
  {
  }

  /** In staging mode the unit runs under the shared staging role, which is
      neither looked up nor created, and attach_policy changes nothing. */
  lemma StagingSkipsIam(s: Setup, c: CloudState, name: string, doc: Option<PolicyDocument>)
    requires s.staging
    ensures CreateRole(s, c, name) == (c, Ok(StagingRole))
    ensures AttachPolicy(s, c, name, doc) == (c, Ok(()))
  {
  }

  /** The attachments of `arns` to `role`. */
  function AttachmentsOf(role: string, arns: seq<string>): set<Attachment>
  {
    set a | a in arns :: Attachment(role, a)
  }

  /** The loop over the common policies. */
  function AttachAll(c: CloudState, role: string, arns: seq<string>): (CloudState, Result<()>)
    decreases |arns|
  {
    if arns == [] then (c, Ok(()))
    else
      var (c1, r1) := c.AttachRolePolicy(role, arns[0]);
      if r1.Err? then (c1, r1) else AttachAll(c1, role, arns[1..])
  }

  /** Attaching to an existing role adds exactly the listed attachments; to a
      missing role the first attachment fails and nothing changes. */
  lemma {:induction false} AttachAllOutcome(c: CloudState, role: string, arns: seq<string>)
    ensures role in c.roles ==> AttachAll(c, role, arns) == (c.(attachments := c.attachments + AttachmentsOf(role, arns)), Ok(()))
    ensures role !in c.roles && arns != [] ==> AttachAll(c, role, arns).0 == c && AttachAll(c, role, arns).1.Err?
    decreases |arns|
  {
    if arns != [] && role in c.roles {
      var c1 := c.(attachments := c.attachments + {Attachment(role, arns[0])});
      assert c.AttachRolePolicy(role, arns[0]) == (c1, Ok(()));
      assert AttachAll(c, role, arns) == AttachAll(c1, role, arns[1..]);
      AttachAllOutcome(c1, role, arns[1..]);
      assert AttachmentsOf(role, arns) == {Attachment(role, arns[0])} + AttachmentsOf(role, arns[1..]) by {
        forall x | x in AttachmentsOf(role, arns) ensures x in {Attachment(role, arns[0])} + AttachmentsOf(role, arns[1..]) {
          var a :| a in arns && x == Attachment(role, a);
          var i :| 0 <= i < |arns| && arns[i] == a;
          if i > 0 {
            assert arns[1..][i - 1] == a;
          }
        }
      }
      assert c1.attachments + AttachmentsOf(role, arns[1..]) == c.attachments + AttachmentsOf(role, arns);
    } else if arns == [] {
      assert AttachmentsOf(role, arns) == {};
      assert c.(attachments := c.attachments + {}) == c;
    }
  }

  // ---------------------------------------------------------------------------
  // The unit's managed policy

  /** The deletion of every listed version that is not the default one. */
  function PruneVersions(c: CloudState, name: string, vs: seq<PolicyVersion>): (CloudState, Result<()>)
    decreases |vs|
  {
    if vs == [] then (c, Ok(()))
    else if vs[0].isDefault then PruneVersions(c, name, vs[1..])
    else
      var (c1, r1) := c.DeletePolicyVersion(name, vs[0].id);
      if r1.Err? then (c1, r1) else PruneVersions(c1, name, vs[1..])
  }

  /** The begin/rescue block: prune and add a default version when the policy
      exists; when any of that fails, create the policy instead. */
  function UpsertPolicy(c: CloudState, name: string, doc: PolicyDocument): (CloudState, Result<string>)
  {
    match c.ListPolicyVersions(name)
    case Err(_) => c.CreatePolicy(name, doc)
    case Ok(vs) =>
      var (c1, r1) := PruneVersions(c, name, vs);
      var (c2, r2) := if r1.Ok? then c1.CreatePolicyVersion(name, doc) else (c1, r1);
      if r2.Ok? then (c2, Ok(c2.PolicyArn(name))) else c2.CreatePolicy(name, doc)
  }

  lemma DistinctDrop(kept: seq<PolicyVersion>, ws: seq<PolicyVersion>)
    requires ws != [] && DistinctIds(kept + ws)
    ensures DistinctIds(kept + ws[1..])
  {
    var a, b := kept + ws, kept + ws[1..];
    forall i, j | 0 <= i < j < |b| ensures b[i].id != b[j].id {
      var i' := if i < |kept| then i else i + 1;
      var j' := if j < |kept| then j else j + 1;
      assert b[i] == a[i'] && b[j] == a[j'];
    }
  }

  /** The version `w` is the only one with its number. */
  lemma UniqueVersion(kept: seq<PolicyVersion>, w: PolicyVersion, rest: seq<PolicyVersion>)
    requires DistinctIds(kept + [w] + rest)
    ensures RemoveVersion(kept + [w] + rest, w.id) == kept + rest
    ensures forall i :: 0 <= i < |kept + [w] + rest| && (kept + [w] + rest)[i].id == w.id ==> (kept + [w] + rest)[i] == w
  {
    var vs := kept + [w] + rest;
    var id := w.id;
    assert vs[|kept|] == w;
    forall i | 0 <= i < |vs| && vs[i].id == id ensures vs[i] == w {
      if i != |kept| {
        assert false;
      }
    }
    forall i | 0 <= i < |kept| ensures kept[i].id != id {
      assert vs[i] == kept[i];
    }
    forall i | 0 <= i < |rest| ensures rest[i].id != id {
      assert vs[|kept| + 1 + i] == rest[i];
    }
    RemoveVersionAppend(kept + [w], rest, id);
    RemoveVersionAppend(kept, [w], id);
    RemoveAbsentVersion(kept, id);
    RemoveAbsentVersion(rest, id);
    assert RemoveVersion([w], id) == [];
  }

  /** Deleting a non-default version whose number no other version has. */
  lemma DeleteNonDefault(c: CloudState, name: string, kept: seq<PolicyVersion>, w: PolicyVersion, rest: seq<PolicyVersion>)
    requires name in c.policies && c.policies[name].versions == kept + [w] + rest
    requires DistinctIds(kept + [w] + rest) && !w.isDefault
    ensures c.DeletePolicyVersion(name, w.id)
      == (c.(policies := c.policies[name := c.policies[name].(versions := kept + rest)]), Ok(()))
  {
    UniqueVersion(kept, w, rest);
    assert c.policies[name].versions[|kept|] == w;
  }

  /** Pruning the versions `ws` listed after the versions `kept` already seen
      leaves `kept` followed by the default versions of `ws`. */
  lemma {:induction false} PruneFrom(c: CloudState, name: string, kept: seq<PolicyVersion>, ws: seq<PolicyVersion>)
    requires name in c.policies && c.policies[name].versions == kept + ws
    requires DistinctIds(kept + ws)
    ensures PruneVersions(c, name, ws)
      == (c.(policies := c.policies[name := c.policies[name].(versions := kept + Defaults(ws))]), Ok(()))
    decreases |ws|
  {
    var p := c.policies[name];
    if ws == [] {
      assert kept + ws == kept && Defaults(ws) == [];
      assert c.policies[name := p.(versions := kept)] == c.policies;
    } else if ws[0].isDefault {
      assert kept + ws == (kept + [ws[0]]) + ws[1..];
      assert PruneVersions(c, name, ws) == PruneVersions(c, name, ws[1..]);
      PruneFrom(c, name, kept + [ws[0]], ws[1..]);
      assert Defaults(ws) == [ws[0]] + Defaults(ws[1..]);
      assert kept + Defaults(ws) == (kept + [ws[0]]) + Defaults(ws[1..]);
    } else {
      assert kept + ws == kept + [ws[0]] + ws[1..];
      DeleteNonDefault(c, name, kept, ws[0], ws[1..]);
      var c1 := c.(policies := c.policies[name := p.(versions := kept + ws[1..])]);
      DistinctDrop(kept, ws);
      assert PruneVersions(c, name, ws) == PruneVersions(c1, name, ws[1..]);
      PruneFrom(c1, name, kept, ws[1..]);
      assert Defaults(ws) == Defaults(ws[1..]);
      assert c1.policies[name := p.(versions := kept + Defaults(ws[1..]))]
          == c.policies[name := p.(versions := kept + Defaults(ws))];
    }
  }

  /** The managed policy after the unit's document has been written to it. */
  function PolicyAfterUpsert(c: CloudState, name: string, doc: PolicyDocument): ManagedPolicy
    requires name in c.policies ==> Defaults(c.policies[name].versions) != []
  {
    if name in c.policies then
      var p := c.policies[name];
      ManagedPolicy([Defaults(p.versions)[0].(isDefault := false), PolicyVersion(p.nextId, doc, true)], p.nextId + 1)
    else ManagedPolicy([PolicyVersion(1, doc, true)], 2)
  }

  /** Writing the document to a well-formed policy deletes every version but
      the default one, keeps that as a non-default version, and adds the
      document as the new default; a missing policy is created with the
      document as its only version. Either way the policy stays well-formed,
      its default version holds the document, and nothing else changes. */
  lemma UpsertPolicyOutcome(c: CloudState, name: string, doc: PolicyDocument)
    requires name in c.policies ==> WellFormedPolicy(c.policies[name])
    ensures var p := PolicyAfterUpsert(c, name, doc);
      && UpsertPolicy(c, name, doc) == (c.(policies := c.policies[name := p]), Ok(c.PolicyArn(name)))
      && WellFormedPolicy(p)
      && Defaults(p.versions) == [PolicyVersion(p.nextId - 1, doc, true)]
  {
    if name in c.policies {
      UpsertExisting(c, name, doc);
    } else {
      var p := PolicyAfterUpsert(c, name, doc);
      assert Defaults(p.versions[1..]) == [];
    }
  }

  /** The first two steps on an existing well-formed policy: the pruning
      leaves only the default version, on top of which the new one goes. */
  lemma PruneThenVersion(c: CloudState, name: string, doc: PolicyDocument)
    requires name in c.policies && WellFormedPolicy(c.policies[name])
    ensures var p := c.policies[name];
      var c1 := c.(policies := c.policies[name := p.(versions := Defaults(p.versions))]);
      && PruneVersions(c, name, p.versions) == (c1, Ok(()))
      && c1.CreatePolicyVersion(name, doc)
         == (c.(policies := c.policies[name := PolicyAfterUpsert(c, name, doc)]), Ok(()))
  {
    var p := c.policies[name];
    PruneFrom(c, name, [], p.versions);
    assert [] + p.versions == p.versions && [] + Defaults(p.versions) == Defaults(p.versions);
    VersionOverDefault(c, name, doc);
  }

  lemma VersionOverDefault(c: CloudState, name: string, doc: PolicyDocument)
    requires name in c.policies && WellFormedPolicy(c.policies[name])
    ensures var p := c.policies[name];
      var c1 := c.(policies := c.policies[name := p.(versions := Defaults(p.versions))]);
      c1.CreatePolicyVersion(name, doc)
         == (c.(policies := c.policies[name := PolicyAfterUpsert(c, name, doc)]), Ok(()))
  {
    var p := c.policies[name];
    var d := Defaults(p.versions)[0];
    assert Defaults(p.versions) == [d];
    var p' := PolicyAfterUpsert(c, name, doc);
    assert Demote([d]) + [PolicyVersion(p.nextId, doc, true)] == p'.versions;
    var c1 := c.(policies := c.policies[name := p.(versions := [d])]);
    assert c1.policies[name := p'] == c.policies[name := p'];
  }

  lemma UpsertExisting(c: CloudState, name: string, doc: PolicyDocument)
    requires name in c.policies && WellFormedPolicy(c.policies[name])
    ensures var p := PolicyAfterUpsert(c, name, doc);
      && UpsertPolicy(c, name, doc) == (c.(policies := c.policies[name := p]), Ok(c.PolicyArn(name)))
      && WellFormedPolicy(p)
      && Defaults(p.versions) == [PolicyVersion(p.nextId - 1, doc, true)]
  {
    PruneThenVersion(c, name, doc);
    var p := c.policies[name];
    var p' := PolicyAfterUpsert(c, name, doc);
    var d := Defaults(p.versions)[0];
    assert d in p.versions;
    assert Defaults(p'.versions[1..]) == [p'.versions[1]];
    assert Defaults(p'.versions) == [p'.versions[1]];
  }

  /** The unit's own policy: written, then attached to the role. */
  function AttachUnique(c: CloudState, name: string, doc: PolicyDocument): (CloudState, Result<()>)
  {
    var (c1, r1) := UpsertPolicy(c, name, doc);
    if r1.Err? then (c1, Err(r1.error)) else c1.AttachRolePolicy(name, r1.value)
  }

  lemma AttachUniqueOutcome(c: CloudState, name: string, doc: PolicyDocument)
    requires name in c.roles
    requires name in c.policies ==> WellFormedPolicy(c.policies[name])
    ensures AttachUnique(c, name, doc)
      == (c.(policies := c.policies[name := PolicyAfterUpsert(c, name, doc)],
             attachments := c.attachments + {Attachment(name, c.PolicyArn(name))}), Ok(()))
  {
    UpsertPolicyOutcome(c, name, doc);
  }

  /** Whether attach_policy writes the unit's own policy. */
  predicate HasStatements(doc: Option<PolicyDocument>)
  {
    doc.Some? && |doc.value.statements| > 0
  }

  /** attach_policy: skipped in staging mode. */
  function AttachPolicy(s: Setup, c: CloudState, name: string, doc: Option<PolicyDocument>): (CloudState, Result<()>)
  {
    if s.staging then (c, Ok(()))
    else if s.commonPolicies.None? then (c, Err(NoSuchEntity(".policy.json")))
    else
      var (c1, r1) := AttachAll(c, name, s.commonPolicies.value);
      if r1.Err? then (c1, r1)
      else
        var (c2, r2) := if HasStatements(doc) then AttachUnique(c1, name, doc.value) else (c1, Ok(()));
        if r2.Err? then (c2, r2) else AttachVpc(s, c2, name)
  }

  /** The last step of attach_policy: the VPC access policy for a unit whose
      .vpc.json is not empty. */
  function AttachVpc(s: Setup, c: CloudState, name: string): (CloudState, Result<()>)
  {
    match Convention.ToPath(name)
    case Err(e) => (c, Err(e))
    case Ok(path) =>
      if |UnitAt(s, path).vpc| > 0 then c.AttachRolePolicy(name, VpcAccessPolicyArn) else (c, Ok(()))
  }

  /** The attachments attach_policy makes for a unit: the common policies, the
      unit's own policy when the document has statements, and the VPC access
      policy when the unit's .vpc.json is not empty. */
  function ExpectedAttachments(s: Setup, c: CloudState, name: string, doc: Option<PolicyDocument>, path: string): set<Attachment>
    requires s.commonPolicies.Some?
  {
    AttachmentsOf(name, s.commonPolicies.value) + UniqueAttachment(c, name, doc) + VpcAttachment(s, name, path)
  }

  function UniqueAttachment(c: CloudState, name: string, doc: Option<PolicyDocument>): set<Attachment>
  {
    if HasStatements(doc) then {Attachment(name, c.PolicyArn(name))} else {}
  }

  function VpcAttachment(s: Setup, name: string, path: string): set<Attachment>
  {
    if |UnitAt(s, path).vpc| > 0 then {Attachment(name, VpcAccessPolicyArn)} else {}
  }

  /** The managed policies after attach_policy: the unit's own one rewritten
      when the document has statements. */
  function PoliciesAfter(c: CloudState, name: string, doc: Option<PolicyDocument>): map<string, ManagedPolicy>
    requires name in c.policies ==> WellFormedPolicy(c.policies[name])
  {
    if HasStatements(doc) then c.policies[name := PolicyAfterUpsert(c, name, doc.value)] else c.policies
  }

  /** The account after a successful attach_policy. */
  function AfterAttachPolicy(s: Setup, c: CloudState, name: string, doc: Option<PolicyDocument>, path: string): CloudState
    requires s.commonPolicies.Some?
    requires name in c.policies ==> WellFormedPolicy(c.policies[name])
  {
    c.(policies := PoliciesAfter(c, name, doc),
       attachments := c.attachments + AttachmentsOf(name, s.commonPolicies.value)
                      + UniqueAttachment(c, name, doc) + VpcAttachment(s, name, path))
  }

  /** For an existing role of a unit name that splits, attach_policy succeeds,
      adds exactly the expected attachments, and changes no policy other than
      the unit's own one; nothing else in the account changes. */
  lemma AttachPolicyOutcome(s: Setup, c: CloudState, name: string, doc: Option<PolicyDocument>)
    requires !s.staging && s.commonPolicies.Some?
    requires name in c.roles && Convention.ToPath(name).Ok?
    requires name in c.policies ==> WellFormedPolicy(c.policies[name])
    ensures AttachPolicy(s, c, name, doc) == (AfterAttachPolicy(s, c, name, doc, Convention.ToPath(name).value), Ok(()))
  {
    var path := Convention.ToPath(name).value;
    var a2 := c.attachments + AttachmentsOf(name, s.commonPolicies.value) + UniqueAttachment(c, name, doc);
    var c2 := c.(policies := PoliciesAfter(c, name, doc), attachments := a2);
    AttachOwnPolicy(s, c, name, doc);
    AttachVpcOutcome(s, c2, name);
    assert c2.(attachments := a2 + VpcAttachment(s, name, path)) == AfterAttachPolicy(s, c, name, doc, path);
  }

  /** The steps of attach_policy before the VPC one. */
  lemma AttachOwnPolicy(s: Setup, c: CloudState, name: string, doc: Option<PolicyDocument>)
    requires !s.staging && s.commonPolicies.Some?
    requires name in c.roles
    requires name in c.policies ==> WellFormedPolicy(c.policies[name])
    ensures AttachPolicy(s, c, name, doc)
      == AttachVpc(s, c.(policies := PoliciesAfter(c, name, doc),
                         attachments := c.attachments + AttachmentsOf(name, s.commonPolicies.value) + UniqueAttachment(c, name, doc)), name)
  {
    var commons := s.commonPolicies.value;
    var a1 := c.attachments + AttachmentsOf(name, commons);
    var c1 := c.(attachments := a1);
    var c2 := c.(policies := PoliciesAfter(c, name, doc), attachments := a1 + UniqueAttachment(c, name, doc));
    AttachAllOutcome(c, name, commons);
    if HasStatements(doc) {
      AttachUniqueOutcome(c1, name, doc.value);
      assert AttachUnique(c1, name, doc.value) == (c2, Ok(()));
    } else {
      assert a1 + {} == a1;
      assert c1 == c2;
    }
  }

  lemma AttachVpcOutcome(s: Setup, c: CloudState, name: string)
    requires name in c.roles && Convention.ToPath(name).Ok?
    ensures AttachVpc(s, c, name)
      == (c.(attachments := c.attachments + VpcAttachment(s, name, Convention.ToPath(name).value)), Ok(()))
  {
    if |UnitAt(s, Convention.ToPath(name).value).vpc| == 0 {
      assert c.attachments + {} == c.attachments;
    }
  }

  /** The unit's own policy stays well-formed, and its default version holds
      the document whenever one with statements was given. */
  lemma AttachPolicyKeepsPolicyWellFormed(c: CloudState, name: string, doc: Option<PolicyDocument>)
    requires name in c.policies ==> WellFormedPolicy(c.policies[name])
    ensures var ps := PoliciesAfter(c, name, doc);
      && (name in ps ==> WellFormedPolicy(ps[name]))
      && (HasStatements(doc) ==> name in ps && Defaults(ps[name].versions) == [PolicyVersion(ps[name].nextId - 1, doc.value, true)])
  {
    if HasStatements(doc) {
      UpsertPolicyOutcome(c, name, doc.value);
    }
  }

  /** A role that is missing makes attach_policy fail before it changes
      anything, as long as there is a common policy to attach first. */
  lemma AttachPolicyMissingRole(s: Setup, c: CloudState, name: string, doc: Option<PolicyDocument>)
    requires !s.staging && s.commonPolicies.Some? && s.commonPolicies.value != []
    requires name !in c.roles
    ensures AttachPolicy(s, c, name, doc).0 == c && AttachPolicy(s, c, name, doc).1.Err?
  {
    AttachAllOutcome(c, name, s.commonPolicies.value);
  }

  // ---------------------------------------------------------------------------
  // What attach_policy may change

  /** `c1` differs from `c` at most in its managed policies and attachments,
      and has every attachment of `c`. */
  predicate PoliciesOnly(c: CloudState, c1: CloudState)
  {
    c1 == c.(policies := c1.policies, attachments := c1.attachments) && c.attachments <= c1.attachments
  }

  lemma {:induction false} AttachAllFrame(c: CloudState, role: string, arns: seq<string>)
    ensures PoliciesOnly(c, AttachAll(c, role, arns).0)
    decreases |arns|
  {
    if arns != [] {
      var (c1, r1) := c.AttachRolePolicy(role, arns[0]);
      if r1.Ok? {
        AttachAllFrame(c1, role, arns[1..]);
      }
    }
  }

  lemma {:induction false} PruneFrame(c: CloudState, name: string, vs: seq<PolicyVersion>)
    ensures PoliciesOnly(c, PruneVersions(c, name, vs).0)
    decreases |vs|
  {
    if vs != [] {
      if vs[0].isDefault {
        PruneFrame(c, name, vs[1..]);
      } else {
        var (c1, r1) := c.DeletePolicyVersion(name, vs[0].id);
        if r1.Ok? {
          PruneFrame(c1, name, vs[1..]);
        }
      }
    }
  }

  lemma UpsertFrame(c: CloudState, name: string, doc: PolicyDocument)
    ensures PoliciesOnly(c, UpsertPolicy(c, name, doc).0)
  {
    if c.ListPolicyVersions(name).Ok? {
      PruneFrame(c, name, c.ListPolicyVersions(name).value);
    }
  }

  /** Whatever happens, attach_policy changes only managed policies and
      attachments, and removes no attachment. */
  lemma AttachPolicyFrame(s: Setup, c: CloudState, name: string, doc: Option<PolicyDocument>)
    ensures PoliciesOnly(c, AttachPolicy(s, c, name, doc).0)
  {
    if !s.staging && s.commonPolicies.Some? {
      AttachAllFrame(c, name, s.commonPolicies.value);
      var (c1, r1) := AttachAll(c, name, s.commonPolicies.value);
      if r1.Ok? && HasStatements(doc) {
        UpsertFrame(c1, name, doc.value);
      }
    }
  }
}
