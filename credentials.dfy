/** The edit that `set_credential` makes to the repository's `.git/config`
    document: clearing the identity (the "Global" row) or applying one
    profile's identity. The document is abstracted to sections of string
    keys and string values; reading and writing the file is in module Gus. */
module Credentials {
  import opened Wrappers

  /** One section (`[user]`, `[core]`, ...) of the target configuration. */
  type Section = map<string, string>

  /** The target configuration: section names to sections. */
  type Doc = map<string, Section>

  /** The string-valued fields of one profile's table in the profile store. */
  type ProfileFields = map<string, string>

  const User := "user"
  const Core := "core"
  /** Key of both the `user.email` entry and the profile's email field. */
  const EmailKey := "email"
  /** Key of both the `user.name` entry and the profile's name field. */
  const NameKey := "name"
  const SshCommand := "sshCommand"
  /** The profile field holding the path of the SSH private key. */
  const SshKeyField := "ssh_key"
  /** What `core.sshCommand` is set to, before the key path. */
  const SshPrefix := "ssh -i "

  /** The keys of the user section that clearing removes. */
  const IdentityKeys: set<string> := {EmailKey, NameKey}

  /** The fields a profile must hold, as strings, to be applied. */
  const RequiredFields: set<string> := {EmailKey, NameKey, SshKeyField}

  /** The identity a complete profile carries. */
  datatype Identity = Identity(email: string, name: string, sshKey: string)

  /** Applying a profile stops at the first field that is missing. */
  datatype ApplyError = MissingField(field: string)

  /** The core section that `doc["core"]["sshCommand"] = ...` writes into:
      the existing one, or a new section with no keys when the document has
      none. The model does not tell apart the inline table the library
      creates in that case from a standard `[core]` table. */
  function CoreOf(doc: Doc): (r: Section)
    ensures Core in doc ==> r == doc[Core]
    ensures Core !in doc ==> r.Keys == {}
  {
    if Core in doc then doc[Core] else map[]
  }

  /** The section `s` of `doc` with the identity entries taken out. */
  function Scrubbed(doc: Doc, s: string): Section
    requires s in doc
  {
    if s == User then doc[s] - IdentityKeys
    else if s == Core then doc[s] - {SshCommand}
    else doc[s]
  }

  /** The document after "clear": `user.email`, `user.name` and
      `core.sshCommand` are gone, a user section left empty is dropped, the
      core section is kept even when it becomes empty, and every other key
      of every section is left as it was. */
  function Cleared(doc: Doc): (r: Doc)
    ensures User in r ==> EmailKey !in r[User] && NameKey !in r[User]
    ensures Core in r ==> SshCommand !in r[Core]
    ensures forall s, k {:trigger k in doc[s]} :: s in doc && k in doc[s] && !(s == User && k in IdentityKeys)
                           && !(s == Core && k == SshCommand)
                           ==> s in r && k in r[s] && r[s][k] == doc[s][k]
    ensures forall s :: s in r ==> s in doc && r[s].Keys <= doc[s].Keys
    ensures forall s :: s in doc && s !in r ==> s == User && doc[User].Keys <= IdentityKeys
    ensures User in doc && doc[User].Keys <= IdentityKeys ==> User !in r
    ensures Core in doc <==> Core in r
  {
    map s | s in doc && !(s == User && doc[User].Keys <= IdentityKeys) :: Scrubbed(doc, s)
  }

  /** The document after applying `id`: the user section is replaced by one
      holding exactly the profile's email and name, `core.sshCommand` runs
      ssh with the profile's key (the core section is created when missing
      and keeps its other keys), and every other section is left as it was. */
  function Applied(doc: Doc, id: Identity): (r: Doc)
    ensures r.Keys == doc.Keys + {User, Core}
    ensures r[User] == map[EmailKey := id.email, NameKey := id.name]
    ensures SshCommand in r[Core] && r[Core][SshCommand] == SshPrefix + id.sshKey
    ensures forall k :: k != SshCommand ==> (k in r[Core] <==> Core in doc && k in doc[Core])
    ensures forall k :: k in r[Core] && k != SshCommand ==> r[Core][k] == doc[Core][k]
    ensures forall s :: s in doc && s != User && s != Core ==> r[s] == doc[s]
  {
    doc[User := map[EmailKey := id.email, NameKey := id.name]]
       [Core := CoreOf(doc)[SshCommand := SshPrefix + id.sshKey]]
  }

  /** The first required field, in the order the profile is read (email,
      name, ssh_key), that the profile lacks. */
  function MissingFieldOf(fields: ProfileFields): (r: Option<string>)
    ensures r.None? <==> RequiredFields <= fields.Keys
    ensures r.Some? ==> r.value in RequiredFields && r.value !in fields
    ensures r.Some? && r.value != EmailKey ==> EmailKey in fields
    ensures r == Some(SshKeyField) ==> NameKey in fields
  {
    if EmailKey !in fields then Some(EmailKey)
    else if NameKey !in fields then Some(NameKey)
    else if SshKeyField !in fields then Some(SshKeyField)
    else None
  }

  /** The identity held by a complete profile. */
  function IdentityOf(fields: ProfileFields): Identity
    requires RequiredFields <= fields.Keys
  {
    Identity(fields[EmailKey], fields[NameKey], fields[SshKeyField])
  }

  /** The "clear" branch of `set_credential`, edit by edit on the document
      read from disk. */
  method ClearIdentity(doc: Doc) returns (r: Doc)
    ensures r == Cleared(doc)
  {
    r := doc;
    if User in r {
      r := r[User := r[User] - {EmailKey}];
      r := r[User := r[User] - {NameKey}];
      if r[User] == map[] {
        r := r - {User};
      }
    }
    if Core in r {
      r := r[Core := r[Core] - {SshCommand}];
    }
    ClearedSections(doc, r);
  }

  /** What ClearIdentity's edits produce, section by section, is Cleared. */
  lemma ClearedSections(doc: Doc, r: Doc)
    requires r.Keys == doc.Keys - (if User in doc && doc[User] - IdentityKeys == map[] then {User} else {})
    requires forall s :: s in r ==> r[s] == Scrubbed(doc, s)
    ensures r == Cleared(doc)
  {
  }

  /** The "apply" branch of `set_credential`: the user section is replaced by
      an empty table, then each field is read from the profile in turn; a
      missing field aborts before anything is written. */
  method ApplyProfile(doc: Doc, fields: ProfileFields) returns (r: Result<Doc, ApplyError>)
    ensures r.Failure? <==> MissingFieldOf(fields).Some?
    ensures r.Failure? ==> r.error == MissingField(MissingFieldOf(fields).value)
    ensures r.Success? ==> RequiredFields <= fields.Keys && r.value == Applied(doc, IdentityOf(fields))
  {
    var d := doc[User := map[]];
    if EmailKey !in fields {
      return Failure(MissingField(EmailKey));
    }
    d := d[User := d[User][EmailKey := fields[EmailKey]]];
    if NameKey !in fields {
      return Failure(MissingField(NameKey));
    }
    d := d[User := d[User][NameKey := fields[NameKey]]];
    if SshKeyField !in fields {
      return Failure(MissingField(SshKeyField));
    }
    var core := if Core in d then d[Core] else map[];
    d := d[Core := core[SshCommand := SshPrefix + fields[SshKeyField]]];
    r := Success(d);
  }

  /** Clearing twice leaves the same document as clearing once. */
  lemma ClearedIdempotent(doc: Doc)
    ensures Cleared(Cleared(doc)) == Cleared(doc)
  {
    var once := Cleared(doc);
    forall s | s in once
      ensures Scrubbed(once, s) == once[s]
    {
    }
  }

  /** Clearing after applying a profile leaves exactly: no user section, the
      core section as it was before minus `sshCommand`, and every other
      section untouched. The user keys other than email and name that apply
      discarded stay lost. When the document had no core section, the empty
      core section left here is this model's: the program creates an inline
      `core` table there, which a later clear does not edit. */
  lemma ClearAfterApply(doc: Doc, id: Identity)
    ensures Cleared(Applied(doc, id)) == (doc - {User})[Core := CoreOf(doc) - {SshCommand}]
  {
    var a := Applied(doc, id);
    assert a[User].Keys <= IdentityKeys;
    assert a[Core] - {SshCommand} == CoreOf(doc) - {SshCommand};
  }

  /** When the user section held nothing but the identity and a core section
      exists, apply followed by clear returns the document to what clearing
      alone gives: apply added nothing that clear does not take away. */
  lemma ClearAfterApplyRestores(doc: Doc, id: Identity)
    requires User in doc ==> doc[User].Keys <= IdentityKeys
    requires Core in doc
    ensures Cleared(Applied(doc, id)) == Cleared(doc)
  {
    ClearAfterApply(doc, id);
  }

  /** Applying a profile gives the same document whether or not the
      identity was cleared first. */
  lemma ApplyAfterClear(doc: Doc, id: Identity)
    ensures Applied(Cleared(doc), id) == Applied(doc, id)
  {
    assert CoreOf(Cleared(doc))[SshCommand := SshPrefix + id.sshKey]
        == CoreOf(doc)[SshCommand := SshPrefix + id.sshKey];
  }

  /** The last profile applied wins: applying `a` and then `b` is the same as
      applying `b` alone (so applying one profile twice changes nothing more). */
  lemma ApplyLastWins(doc: Doc, a: Identity, b: Identity)
    ensures Applied(Applied(doc, a), b) == Applied(doc, b)
  {
    assert CoreOf(Applied(doc, a))[SshCommand := SshPrefix + b.sshKey]
        == CoreOf(doc)[SshCommand := SshPrefix + b.sshKey];
  }
}
