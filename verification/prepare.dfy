// `host.prepare`: an installation's identity and secrets, created once and then kept over any
// number of crashes and resumed runs.

module Preparation {
  import opened Base

  /** A completely written secret: 32 random bytes as hexadecimal text. */
  datatype Secret = Secret(text: string)

  datatype Name = SetupToken | EncryptionKey | SessionSecret | PostgresPassword

  /** The saved database files. */
  datatype Path = DatabaseUrl | RuntimeUrl | DatabaseCa

  /** The installation marker. `files` are the digests of the saved database files; a digest stands for the contents. */
  datatype Marker = Marker(id: nat, fingerprint: string, secretsCreated: bool, files: map<Path, string>)

  /** The inputs of a run: their fingerprint, and the database, managed or given as a URI with an optional CA. */
  datatype Inputs = Inputs(fingerprint: string, managed: bool, uri: string, ca: Option<string>)

  function NamesOf(inputs: Inputs): set<Name> {
    {SetupToken, EncryptionKey, SessionSecret} + if inputs.managed then {PostgresPassword} else {}
  }

  /** `[0-9a-f]{64}` with an optional line break. */
  predicate SecretOk(s: Secret) {
    Hex(s.text, 64) || (|s.text| == 65 && s.text[64] == '\n' && Hex(s.text[..64], 64))
  }

  function Stripped(s: Secret): string {
    if |s.text| == 65 then s.text[..64] else s.text
  }

  /** The managed database's URI file holds its password. */
  function ManagedUri(password: Secret): string {
    "postgresql://hakopod:" + Stripped(password) + "@10.43.0.20:5432/hakopod?sslmode=disable\n"
  }

  /** The database files that a first complete run saves. */
  function FilesFor(inputs: Inputs, secrets: map<Name, Secret>): map<Path, string>
    requires inputs.managed ==> PostgresPassword in secrets
  {
    var uri := if inputs.managed then ManagedUri(secrets[PostgresPassword]) else inputs.uri + "\n";
    map[DatabaseUrl := uri, RuntimeUrl := uri] + if !inputs.managed && inputs.ca.Some?
      then map[DatabaseCa := inputs.ca.value] else map[]
  }

  /** The names of the secrets: the database password is one of them exactly for the managed database. */
  lemma NamesMeaning(inputs: Inputs, n: Name)
    ensures n in NamesOf(inputs) <==> n != PostgresPassword || inputs.managed
  {
  }

  /** 64 lower-case hexadecimal digits, and perhaps a line break. */
  ghost predicate Digits(text: string, digits: string) {
    && |digits| == 64 && (text == digits || text == digits + "\n")
    && forall i :: 0 <= i < |digits| ==> '0' <= digits[i] <= '9' || 'a' <= digits[i] <= 'f'
  }

  lemma SecretMeaning(s: Secret)
    ensures SecretOk(s) <==> exists digits :: Digits(s.text, digits)
    ensures SecretOk(s) ==> Digits(s.text, Stripped(s))
  {
    if SecretOk(s) {
      assert Digits(s.text, Stripped(s));
    }
    if digits :| Digits(s.text, digits) {
      assert |s.text| == 65 ==> s.text[..64] == digits;
    }
  }

  /** The saved database files, written out. */
  lemma FilesMeaning(inputs: Inputs, secrets: map<Name, Secret>, digits: string)
    requires inputs.managed ==> PostgresPassword in secrets && Digits(secrets[PostgresPassword].text, digits)
    ensures var files := FilesFor(inputs, secrets);
            && DatabaseUrl in files && RuntimeUrl in files && files[DatabaseUrl] == files[RuntimeUrl]
            && files[DatabaseUrl] == (if inputs.managed
                 then "postgresql://hakopod:" + digits + "@10.43.0.20:5432/hakopod?sslmode=disable\n"
                 else inputs.uri + "\n")
            && (DatabaseCa in files <==> !inputs.managed && inputs.ca.Some?)
            && (DatabaseCa in files ==> files[DatabaseCa] == inputs.ca.value)
  {
    if inputs.managed {
      var s := secrets[PostgresPassword];
      assert |s.text| == 65 ==> s.text[..64] == digits;
    }
  }

  lemma FilesSaved(inputs: Inputs, secrets: map<Name, Secret>, before: map<Path, string>, uri: string,
                   files: map<Path, string>)
    requires inputs.managed ==> PostgresPassword in secrets
    requires uri == if inputs.managed then ManagedUri(secrets[PostgresPassword]) else inputs.uri + "\n"
    requires var saved := map[DatabaseUrl := uri, RuntimeUrl := uri];
             files == if !inputs.managed && inputs.ca.Some? then saved[DatabaseCa := inputs.ca.value] else saved
    ensures files == FilesFor(inputs, secrets) && DatabaseUrl in files && RuntimeUrl in files
    ensures var first := if !inputs.managed && inputs.ca.Some? then before[DatabaseCa := inputs.ca.value] else before;
            first[DatabaseUrl := uri][RuntimeUrl := uri] == before + files
  {
    hide ManagedUri;
  }

  class Machine {
    var marker: Option<Marker>
    var secrets: map<Name, Secret>
    var database: map<Path, string>
    /** Ids drawn so far; a drawn id is new. */
    var drawn: set<nat>
    /** A step of this run failed by itself. */
    ghost var failing: bool

    constructor ()
      ensures marker == None && secrets == map[] && database == map[]
    {
      marker, secrets, database, drawn, failing := None, map[], map[], {}, false;
    }

    /** `verify_database_state`: the saved files are those whose digests the marker holds. */
    predicate DatabaseKept(m: Marker)
      reads this
    {
      && DatabaseUrl in m.files && RuntimeUrl in m.files
      && forall p :: p in m.files ==> p in database && database[p] == m.files[p]
    }

    /** `verify_resume`. */
    predicate Resumable(m: Marker, inputs: Inputs)
      reads this
    {
      m.fingerprint == inputs.fingerprint && (m.secretsCreated ==> DatabaseKept(m))
    }

    /** A run may go on from a marker made for the same inputs; and once all secrets were created both database URLs are
        recorded, and every recorded file is as it was saved. */
    lemma ResumableMeaning(m: Marker, inputs: Inputs)
      ensures Resumable(m, inputs) <==>
              && m.fingerprint == inputs.fingerprint
              && (m.secretsCreated ==>
                    && DatabaseUrl in m.files && RuntimeUrl in m.files
                    && forall p :: p in m.files ==> p in database && database[p] == m.files[p])
    {
    }

    // ----- Writes: complete or not at all -----

    method WriteMarker(m: Marker) returns (sig: Signal)
      modifies this`marker, this`failing
      ensures sig == Continue ==> marker == Some(m)
      ensures marker == old(marker) || marker == Some(m)
      ensures old(failing) ==> failing
      ensures sig != Continue ==> failing
      ensures sig == Continue ==> failing == old(failing)
    {
      sig := Attempted();
      var renamed := *;
      if sig == Continue || (sig == Crash && renamed) {
        marker := Some(m);
      }
    }

    method WriteSecret(name: Name) returns (sig: Signal)
      requires name !in secrets
      modifies this`secrets, this`failing
      ensures sig == Continue ==> name in secrets && SecretOk(secrets[name])
      ensures name in secrets ==> secrets == old(secrets)[name := secrets[name]]
      ensures name !in secrets ==> secrets == old(secrets)
      ensures old(failing) ==> failing
      ensures sig != Continue ==> failing
      ensures sig == Continue ==> failing == old(failing)
    {
      sig := Attempted();
      var renamed := *;
      if sig == Continue || (sig == Crash && renamed) {
        var text := RandomHex();
        secrets := secrets[name := Secret(text)];
      }
    }

    method WriteDatabase(p: Path, content: string) returns (sig: Signal)
      modifies this`database, this`failing
      ensures sig == Continue ==> database == old(database)[p := content]
      ensures database == old(database) || database == old(database)[p := content]
      ensures old(failing) ==> failing
      ensures sig != Continue ==> failing
      ensures sig == Continue ==> failing == old(failing)
    {
      sig := Attempted();
      var renamed := *;
      if sig == Continue || (sig == Crash && renamed) {
        database := database[p := content];
      }
    }

    /** A step that may fail by itself. */
    method Attempted() returns (sig: Signal)
      modifies this`failing
      ensures old(failing) ==> failing
      ensures sig != Continue ==> failing
      ensures sig == Continue ==> failing == old(failing)
    {
      sig := *;
      failing := failing || sig != Continue;
    }

    // ----- Preparing -----

    /** The loop over the secrets: what is there is checked and kept, what is missing is created, except on the resumed
        run of an installation whose secrets were all created. */
    method PrepareSecrets(inputs: Inputs, complete: bool) returns (sig: Signal)
      modifies this`secrets, this`failing
      ensures old(secrets.Keys) <= secrets.Keys && forall n :: n in old(secrets) ==> secrets[n] == old(secrets)[n]
      ensures complete || NamesOf(inputs) <= old(secrets.Keys) ==> secrets == old(secrets)
      ensures sig == Continue ==>
              NamesOf(inputs) <= secrets.Keys && forall n :: n in NamesOf(inputs) ==> SecretOk(secrets[n])
      ensures old(failing) ==> failing
      ensures sig != Continue ==>
                || failing
                || exists n :: n in NamesOf(inputs)
                               && if n in old(secrets) then !SecretOk(old(secrets)[n]) else complete
      ensures sig == Continue ==> failing == old(failing)
    {
      sig := Continue;
      var todo := NamesOf(inputs);
      while todo != {}
        invariant todo <= NamesOf(inputs)
        invariant old(secrets.Keys) <= secrets.Keys && forall n :: n in old(secrets) ==> secrets[n] == old(secrets)[n]
        invariant complete || NamesOf(inputs) <= old(secrets.Keys) ==> secrets == old(secrets)
        invariant sig == Continue && failing == old(failing) && secrets.Keys * todo <= old(secrets.Keys)
        invariant forall n :: n in NamesOf(inputs) && n !in todo ==> n in secrets && SecretOk(secrets[n])
        decreases todo
      {
        var n :| n in todo;
        if n in secrets {
          if !SecretOk(secrets[n]) {
            return Raise;
          }
        } else {
          if complete {
            return Raise;
          }
          sig := WriteSecret(n);
          if sig != Continue {
            return;
          }
        }
        todo := todo - {n};
      }
    }

    /** `preserve_database`: verified once the secrets were created, and written before. */
    method PreserveDatabase(inputs: Inputs, m: Marker) returns (sig: Signal, files: map<Path, string>)
      requires inputs.managed ==> PostgresPassword in secrets
      modifies this`database, this`failing
      ensures m.secretsCreated ==>
              database == old(database) && files == m.files && (sig == Continue <==> DatabaseKept(m))
      ensures sig == Continue ==> DatabaseKept(m.(files := files))
      ensures sig == Continue && !m.secretsCreated ==>
                files == FilesFor(inputs, secrets) && database == old(database) + files
      ensures old(failing) ==> failing
      ensures sig != Continue ==> failing || (m.secretsCreated && !old(DatabaseKept(m)))
      ensures sig == Continue ==> failing == old(failing)
    {
      hide ManagedUri, FilesFor;
      ghost var before := database;
      files := m.files;
      if m.secretsCreated {
        return if DatabaseKept(m) then Continue else Raise, files;
      }
      sig := Continue;
      if !inputs.managed && inputs.ca.Some? {
        sig := WriteDatabase(DatabaseCa, inputs.ca.value);
        if sig != Continue {
          return;
        }
      }
      var uri := if inputs.managed then ManagedUri(secrets[PostgresPassword]) else inputs.uri + "\n";
      sig := WriteDatabase(DatabaseUrl, uri);
      if sig != Continue {
        return;
      }
      sig := WriteDatabase(RuntimeUrl, uri);
      files := map[DatabaseUrl := uri, RuntimeUrl := uri];
      if !inputs.managed && inputs.ca.Some? {
        files := files[DatabaseCa := inputs.ca.value];
      }
      FilesSaved(inputs, secrets, before, uri, files);
    }

    /** `prepare`. An existing marker is kept, and refuses other inputs or a changed database; without one there is
        nothing to resume, and a new id is drawn. Secrets are only ever added. Once all of them were created, nothing
        but a missing secret on a run that is not a resumed one makes a difference: that one is created anew. */
    method Prepare(inputs: Inputs, resume: bool) returns (sig: Signal)
      modifies this
      ensures old(marker).Some? ==> drawn == old(drawn) && marker.Some? && marker.value.id == old(marker).value.id
      ensures old(marker) == None && marker.Some? ==> marker.value.id !in old(drawn) && marker.value.id in drawn
      ensures old(secrets.Keys) <= secrets.Keys && forall n :: n in old(secrets) ==> secrets[n] == old(secrets)[n]
      ensures sig == Continue ==> Complete(inputs)
      ensures resume && old(marker) == None ==>
              sig != Continue && marker == None && secrets == old(secrets) && database == old(database)
      ensures old(marker).Some? && !old(Resumable(marker.value, inputs)) ==>
                sig != Continue && marker == old(marker) && secrets == old(secrets) && database == old(database)
      ensures old(marker).Some? && old(marker).value.secretsCreated ==>
              marker == old(marker) && database == old(database)
      ensures old(marker).Some? && old(marker).value.secretsCreated && resume ==> secrets == old(secrets)
      ensures old(marker).Some? && old(marker).value.secretsCreated && sig == Continue ==>
                (secrets == old(secrets) <==> NamesOf(inputs) <= old(secrets.Keys))
      ensures sig == Continue && !(old(marker).Some? && old(marker).value.secretsCreated) ==>
              marker.value.files == FilesFor(inputs, secrets)
      ensures sig != Continue ==>
              || failing || (old(marker) == None && resume)
              || (old(marker).Some? && !old(Resumable(marker.value, inputs)))
              || exists n :: n in NamesOf(inputs) &&
                   if n in old(secrets) then !SecretOk(old(secrets)[n])
                   else resume && old(marker).Some? && old(marker).value.secretsCreated
      ensures sig == Continue ==> !failing
    {
      failing := false;
      var m: Marker;
      if marker.Some? {
        if !Resumable(marker.value, inputs) {
          return Raise;
        }
        m := marker.value;
      } else {
        if resume {
          return Raise;
        }
        var id := NewId();
        sig := Attempted();
        if sig != Continue {
          return;
        }
        m := Marker(id, inputs.fingerprint, false, map[]);
        sig := WriteMarker(m);
        if sig != Continue {
          return;
        }
      }
      sig := Attempted();
      if sig != Continue {
        return;
      }
      sig := PrepareSecrets(inputs, resume && m.secretsCreated);
      if sig != Continue {
        return;
      }
      sig := Attempted();
      if sig != Continue {
        return;
      }
      var files;
      sig, files := PreserveDatabase(inputs, m);
      if sig != Continue {
        return;
      }
      sig := WriteMarker(m.(secretsCreated := true, files := files));
    }

    /** `secrets.token_hex(16)`, which never repeats. */
    method NewId() returns (id: nat)
      modifies this`drawn
      ensures id !in old(drawn) && drawn == old(drawn) + {id}
    {
      SomeNat(drawn);
      id :| id !in drawn;
      drawn := drawn + {id};
    }

    /** What a successful run leaves. */
    ghost predicate Complete(inputs: Inputs)
      reads this
    {
      && marker.Some? && marker.value.secretsCreated && marker.value.fingerprint == inputs.fingerprint
        && DatabaseKept(marker.value)
      && NamesOf(inputs) <= secrets.Keys && forall n :: n in NamesOf(inputs) ==> SecretOk(secrets[n])
    }
  }

  /** Some 64 hexadecimal digits and a line break. */
  method RandomHex() returns (text: string)
    ensures SecretOk(Secret(text))
  {
    var zeros := seq(64, i => '0');
    assert (zeros + "\n")[..64] == zeros;
    assert SecretOk(Secret(zeros + "\n"));
    text :| SecretOk(Secret(text));
  }

  lemma {:induction false} Bounded(s: set<nat>) returns (bound: nat)
    ensures forall x :: x in s ==> x < bound
  {
    if s == {} {
      bound := 0;
    } else {
      var x :| x in s;
      var rest := Bounded(s - {x});
      assert forall y :: y in s ==> y == x || y in s - {x};
      bound := if x < rest then rest else x + 1;
    }
  }

  lemma SomeNat(s: set<nat>)
    ensures exists x: nat :: x !in s
  {
    var bound := Bounded(s);
    assert bound !in s;
  }

  /** What is on the machine after a run: the id and whether all secrets were created, and the secrets. */
  datatype Record = Record(id: Option<nat>, complete: bool, secrets: map<Name, Secret>)

  ghost function RecordOf(m: Machine): Record
    reads m
  {
    Record(if m.marker.Some? then Some(m.marker.value.id) else None, m.marker.Some? && m.marker.value.secretsCreated,
      m.secrets)
  }

  /** A later record: an id stays once it is there; and once all secrets were created nothing new appears and nothing
      changes, although something may be missing. */
  ghost predicate Follows(before: Record, after: Record) {
    && (before.id.Some? ==> after.id == before.id)
    && (before.complete ==>
      after.complete && forall n :: n in after.secrets ==> n in before.secrets && after.secrets[n] == before.secrets[n])
  }

  /** A secret of record `i` that was not lost on the way is in record `j`, unchanged. */
  ghost predicate Kept(records: seq<Record>, losses: seq<set<Name>>, i: nat, j: nat)
    requires i <= j < |records| == |losses| + 1
  {
    forall n :: n in records[i].secrets && (forall k :: i <= k < j ==> n !in losses[k]) ==>
      n in records[j].secrets && records[j].secrets[n] == records[i].secrets[n]
  }

  lemma KeptOn(records: seq<Record>, losses: seq<set<Name>>, i: nat, next: Record, lost: set<Name>)
    requires i < |records| == |losses| + 1 && Kept(records, losses, i, |losses|)
    requires var last := records[|losses|].secrets;
             forall n :: n in last && n !in lost ==> n in next.secrets && next.secrets[n] == last[n]
    ensures Kept(records + [next], losses + [lost], i, |losses| + 1)
  {
    assert (losses + [lost])[|losses|] == lost;
    assert forall k :: i <= k < |losses| ==> losses[k] == (losses + [lost])[k];
  }

  lemma KeptBefore(records: seq<Record>, losses: seq<set<Name>>, i: nat, j: nat, next: Record, lost: set<Name>)
    requires i <= j < |records| == |losses| + 1 && Kept(records, losses, i, j)
    ensures Kept(records + [next], losses + [lost], i, j)
  {
    assert forall k :: i <= k < j ==> losses[k] == (losses + [lost])[k];
  }

  /** Over an initial run and any number of resumed runs, with crashes and failures anywhere, and with database files
      changed and secrets lost (`losses`, one set before each run) behind the installer's back in between: any two
      records follow each other, and a secret that was not lost between them is the same in both. */
  method Lifetime(m: Machine, inputs: seq<Inputs>) returns (ghost records: seq<Record>, ghost losses: seq<set<Name>>)
    modifies m
    ensures |records| == |inputs| + 1 && records[0] == old(RecordOf(m)) && records[|inputs|] == RecordOf(m)
    ensures |losses| == |inputs|
    ensures forall i, j :: 0 <= i <= j < |records| ==> Follows(records[i], records[j]) && Kept(records, losses, i, j)
  {
    hide Machine.Resumable, Machine.Complete, Machine.DatabaseKept, SecretOk, FilesFor, NamesOf;
    records, losses := [RecordOf(m)], [];
    for i := 0 to |inputs|
      invariant |records| == i + 1 && records[0] == old(RecordOf(m)) && records[i] == RecordOf(m)
      invariant |losses| == i
      invariant forall j, k :: 0 <= j <= k < |records| ==>
                  Follows(records[j], records[k]) && Kept(records, losses, j, k)
    {
      var damaged: map<Path, string> :| true;
      m.database := damaged;
      var lost: set<Name> :| true;
      m.secrets := m.secrets - lost;
      var sig := m.Prepare(inputs[i], m.marker.Some?);
      assert Follows(records[i], RecordOf(m));
      forall j, k | 0 <= j <= k <= i + 1 ensures Kept(records + [RecordOf(m)], losses + [lost], j, k) {
        if j <= i && k == i + 1 {
          KeptOn(records, losses, j, RecordOf(m), lost);
        } else if k <= i {
          KeptBefore(records, losses, j, k, RecordOf(m), lost);
        }
      }
      records, losses := records + [RecordOf(m)], losses + [lost];
    }
  }
}
