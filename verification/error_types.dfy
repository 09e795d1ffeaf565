/**
  The source-control error taxonomy: severities, categories, the per-type
  retry-policy metadata, and the registry that indexes the 26 registered
  error types by category, by severity and by retryability.
*/
module ErrorTypes {
  import opened Outcomes

  datatype ErrorSeverity = Low | Medium | High | Critical

  datatype ErrorCategory =
    | Network | Authentication | Authorization | Validation | Configuration
    | FileSystem | Security | Api | Provider | Local | Unknown

  /** An error-type identifier is the string value of its enum member. */
  type ErrorTypeId = string

  datatype ErrorTypeMetadata = ErrorTypeMetadata(
    severity: ErrorSeverity,
    category: ErrorCategory,
    isRetryable: bool,
    retryDelay: real,
    maxRetries: int,
    description: string,
    keywords: seq<string>,
    patterns: seq<string>)
  {
    /** The fields that drive classification and retrying. */
    function ToPolicy(): Policy {
      Policy(severity, category, isRetryable, retryDelay, maxRetries)
    }
  }

  /** The non-textual part of a metadata record. */
  datatype Policy = Policy(
    severity: ErrorSeverity,
    category: ErrorCategory,
    isRetryable: bool,
    retryDelay: real,
    maxRetries: int)

  /** The textual part of a metadata record; nothing in the core reads it. */
  datatype Texts = Texts(description: string, keywords: seq<string>, patterns: seq<string>)

  /** One `_add_error_metadata` call of the initialisation table. */
  datatype Entry = Entry(id: ErrorTypeId, metadata: ErrorTypeMetadata)

  /** The registry's metadata map and its three precomputed indexes. */
  datatype Registry = Registry(
    metadata: map<ErrorTypeId, ErrorTypeMetadata>,
    categoryMappings: map<ErrorCategory, set<ErrorTypeId>>,
    severityMappings: map<ErrorSeverity, set<ErrorTypeId>>,
    retryableErrors: set<ErrorTypeId>,
    nonRetryableErrors: set<ErrorTypeId>)

  /** Every category, in declaration order (`list(ErrorCategory)`). */
  function ErrorCategories(): seq<ErrorCategory> {
    [Network, Authentication, Authorization, Validation, Configuration,
     FileSystem, Security, Api, Provider, Local, Unknown]
  }

  /** Every severity, in declaration order (`list(ErrorSeverity)`). */
  function ErrorSeverities(): seq<ErrorSeverity> {
    [Low, Medium, High, Critical]
  }

  function EmptyRegistry(): Registry {
    Registry(map[], map[], map[], {}, {})
  }

  // ---------------------------------------------------------------------------
  // Lookups
  // ---------------------------------------------------------------------------

  function GetMetadata(r: Registry, id: ErrorTypeId): (m: Option<ErrorTypeMetadata>)
    ensures m.Some? <==> id in r.metadata
    ensures m.Some? ==> m.value == r.metadata[id]
  {
    if id in r.metadata then Some(r.metadata[id]) else None
  }

  /** The category's index set, or the empty set for a category never used. */
  function GetErrorsByCategory(r: Registry, c: ErrorCategory): (ids: set<ErrorTypeId>)
    ensures c !in r.categoryMappings ==> ids == {}
  {
    if c in r.categoryMappings then r.categoryMappings[c] else {}
  }

  /** The severity's index set, or the empty set for a severity never used. */
  function GetErrorsBySeverity(r: Registry, s: ErrorSeverity): (ids: set<ErrorTypeId>)
    ensures s !in r.severityMappings ==> ids == {}
  {
    if s in r.severityMappings then r.severityMappings[s] else {}
  }

  /** `get_all_error_types`: exactly the ids a lookup finds. */
  function GetAllErrorTypes(r: Registry): (ids: set<ErrorTypeId>)
    ensures forall id :: id in ids <==> GetMetadata(r, id).Some?
  {
    r.metadata.Keys
  }

  /** `get_error_categories`: `list(ErrorCategory)`, every member once in declaration order. */
  function GetErrorCategories(): (cs: seq<ErrorCategory>)
    ensures |cs| == 11
    ensures forall c: ErrorCategory :: c in cs
    ensures forall i, j | 0 <= i < j < |cs| :: cs[i] != cs[j]
  {
    var cs := [Network, Authentication, Authorization, Validation, Configuration, FileSystem, Security, Api, Provider, Local, Unknown];
    assert forall c: ErrorCategory :: c in cs by {
      forall c: ErrorCategory ensures c in cs {
        if c == Network {
          assert cs[0] == c;
        } else if c == Authentication {
          assert cs[1] == c;
        } else if c == Authorization {
          assert cs[2] == c;
        } else if c == Validation {
          assert cs[3] == c;
        } else if c == Configuration {
          assert cs[4] == c;
        } else if c == FileSystem {
          assert cs[5] == c;
        } else if c == Security {
          assert cs[6] == c;
        } else if c == Api {
          assert cs[7] == c;
        } else if c == Provider {
          assert cs[8] == c;
        } else if c == Local {
          assert cs[9] == c;
        } else {
          assert cs[10] == c;
        }
      }
    }
    cs
  }

  /** `get_error_severities`: `list(ErrorSeverity)`, every member once in declaration order. */
  function GetErrorSeverities(): (ss: seq<ErrorSeverity>)
    ensures |ss| == 4
    ensures forall s: ErrorSeverity :: s in ss
    ensures forall i, j | 0 <= i < j < |ss| :: ss[i] != ss[j]
  {
    var ss := [Low, Medium, High, Critical];
    assert forall s: ErrorSeverity :: s in ss by {
      forall s: ErrorSeverity ensures s in ss {
        if s == Low {
          assert ss[0] == s;
        } else if s == Medium {
          assert ss[1] == s;
        } else if s == High {
          assert ss[2] == s;
        } else {
          assert ss[3] == s;
        }
      }
    }
    ss
  }

  // ---------------------------------------------------------------------------
  // Registration
  // ---------------------------------------------------------------------------

  /**
    `_add_error_metadata`: store the metadata and add the id to the index of
    its category, of its severity and of its retryability.
  */
  function AddErrorMetadata(r: Registry, id: ErrorTypeId, md: ErrorTypeMetadata): (r': Registry)
    ensures GetMetadata(r', id) == Some(md)
    ensures forall other :: other != id ==> GetMetadata(r', other) == GetMetadata(r, other)
    ensures GetErrorsByCategory(r', md.category) == GetErrorsByCategory(r, md.category) + {id}
    ensures forall c :: c != md.category ==> GetErrorsByCategory(r', c) == GetErrorsByCategory(r, c)
    ensures GetErrorsBySeverity(r', md.severity) == GetErrorsBySeverity(r, md.severity) + {id}
    ensures forall s :: s != md.severity ==> GetErrorsBySeverity(r', s) == GetErrorsBySeverity(r, s)
    ensures md.isRetryable ==>
              (r'.retryableErrors == r.retryableErrors + {id} && r'.nonRetryableErrors == r.nonRetryableErrors)
    ensures !md.isRetryable ==>
              (r'.nonRetryableErrors == r.nonRetryableErrors + {id} && r'.retryableErrors == r.retryableErrors)
  {
    Registry(
      r.metadata[id := md],
      r.categoryMappings[md.category := GetErrorsByCategory(r, md.category) + {id}],
      r.severityMappings[md.severity := GetErrorsBySeverity(r, md.severity) + {id}],
      if md.isRetryable then r.retryableErrors + {id} else r.retryableErrors,
      if md.isRetryable then r.nonRetryableErrors else r.nonRetryableErrors + {id})
  }

  /** The registry produced by adding `entries` in order to an empty one. */
  function Build(entries: seq<Entry>): Registry
    decreases |entries|
  {
    if |entries| == 0 then EmptyRegistry()
    else
      var last := entries[|entries| - 1];
      AddErrorMetadata(Build(entries[..|entries| - 1]), last.id, last.metadata)
  }

  // ---------------------------------------------------------------------------
  // Index invariants
  // ---------------------------------------------------------------------------

  /**
    The indexes agree with the metadata map: the retryable and non-retryable
    sets partition the registered ids according to `isRetryable`, and each
    category (severity) set holds exactly the ids of that category (severity).
  */
  ghost predicate Consistent(r: Registry) {
    && r.retryableErrors !! r.nonRetryableErrors
    && r.retryableErrors + r.nonRetryableErrors == r.metadata.Keys
    && (forall id :: id in r.retryableErrors ==> id in r.metadata && r.metadata[id].isRetryable)
    && (forall id :: id in r.nonRetryableErrors ==> id in r.metadata && !r.metadata[id].isRetryable)
    && (forall c, id :: id in GetErrorsByCategory(r, c) <==> id in r.metadata && r.metadata[id].category == c)
    && (forall s, id :: id in GetErrorsBySeverity(r, s) <==> id in r.metadata && r.metadata[id].severity == s)
  }

  /** Adding a not-yet-registered id keeps every index consistent. */
  lemma AddPreservesConsistent(r: Registry, id: ErrorTypeId, md: ErrorTypeMetadata)
    requires Consistent(r)
    requires id !in r.metadata
    ensures Consistent(AddErrorMetadata(r, id, md))
  {
    var r' := AddErrorMetadata(r, id, md);
    forall c, x
      ensures x in GetErrorsByCategory(r', c) <==> x in r'.metadata && r'.metadata[x].category == c
    {
      if x != id {
        assert GetMetadata(r', x) == GetMetadata(r, x);
      }
    }
    forall s, x
      ensures x in GetErrorsBySeverity(r', s) <==> x in r'.metadata && r'.metadata[x].severity == s
    {
      if x != id {
        assert GetMetadata(r', x) == GetMetadata(r, x);
      }
    }
  }

  ghost predicate UniqueIds(entries: seq<Entry>) {
    forall i, j :: 0 <= i < j < |entries| ==> entries[i].id != entries[j].id
  }

  ghost function IdSet(entries: seq<Entry>): set<ErrorTypeId> {
    set i | 0 <= i < |entries| :: entries[i].id
  }

  /** The registered ids are exactly the ids of the entries. */
  lemma {:induction false} BuildKeys(entries: seq<Entry>)
    ensures Build(entries).metadata.Keys == IdSet(entries)
    decreases |entries|
  {
    if |entries| > 0 {
      var n := |entries| - 1;
      BuildKeys(entries[..n]);
      IdSetSnoc(entries);
    }
  }

  /** The ids of a non-empty sequence are those of its prefix and the last id. */
  lemma IdSetSnoc(entries: seq<Entry>)
    requires |entries| > 0
    ensures IdSet(entries) == IdSet(entries[..|entries| - 1]) + {entries[|entries| - 1].id}
  {
    var n := |entries| - 1;
    forall x | x in IdSet(entries) ensures x in IdSet(entries[..n]) + {entries[n].id} {
      var i :| 0 <= i < |entries| && entries[i].id == x;
      if i < n { assert entries[..n][i] == entries[i]; }
    }
    forall x | x in IdSet(entries[..n]) ensures x in IdSet(entries) {
      var i :| 0 <= i < n && entries[..n][i].id == x;
      assert entries[i].id == x;
    }
  }

  /** Building from entries with distinct ids yields a consistent registry. */
  lemma {:induction false} BuildConsistent(entries: seq<Entry>)
    requires UniqueIds(entries)
    ensures Consistent(Build(entries))
    decreases |entries|
  {
    if |entries| > 0 {
      var n := |entries| - 1;
      var prefix := entries[..n];
      assert UniqueIds(prefix) by {
        forall i, j | 0 <= i < j < n ensures prefix[i].id != prefix[j].id {
          assert prefix[i] == entries[i] && prefix[j] == entries[j];
        }
      }
      BuildConsistent(prefix);
      BuildKeys(prefix);
      assert entries[n].id !in IdSet(prefix) by {
        forall i | 0 <= i < n ensures prefix[i].id != entries[n].id {
          assert prefix[i] == entries[i];
        }
      }
      AddPreservesConsistent(Build(prefix), entries[n].id, entries[n].metadata);
    }
  }

  /** With distinct ids, every entry's id is looked up to that entry's metadata. */
  lemma {:induction false} BuildLookup(entries: seq<Entry>, k: nat)
    requires UniqueIds(entries)
    requires k < |entries|
    ensures GetMetadata(Build(entries), entries[k].id) == Some(entries[k].metadata)
    decreases |entries|
  {
    var n := |entries| - 1;
    if k < n {
      var prefix := entries[..n];
      assert UniqueIds(prefix) by {
        forall i, j | 0 <= i < j < n ensures prefix[i].id != prefix[j].id {
          assert prefix[i] == entries[i] && prefix[j] == entries[j];
        }
      }
      BuildLookup(prefix, k);
      assert prefix[k] == entries[k];
    }
  }

  // ---------------------------------------------------------------------------
  // The initialisation table
  // ---------------------------------------------------------------------------

  /** The id `_initialize_metadata` registers at position `k`, in registration order. */
  function IdAt(k: int): ErrorTypeId {
    if k == 0 then "network_error" else
    if k == 1 then "timeout_error" else
    if k == 2 then "connection_reset_error" else
    if k == 3 then "dns_error" else
    if k == 4 then "ssl_error" else
    if k == 5 then "authentication_error" else
    if k == 6 then "github_2fa_error" else
    if k == 7 then "authorization_error" else
    if k == 8 then "permission_denied_error" else
    if k == 9 then "validation_error" else
    if k == 10 then "invalid_input_error" else
    if k == 11 then "not_found_error" else
    if k == 12 then "configuration_error" else
    if k == 13 then "file_not_found_error" else
    if k == 14 then "file_access_error" else
    if k == 15 then "disk_space_error" else
    if k == 16 then "github_ssh_error" else
    if k == 17 then "gitlab_ssh_error" else
    if k == 18 then "server_error" else
    if k == 19 then "rate_limit_error" else
    if k == 20 then "temporary_error" else
    if k == 21 then "github_merge_conflict" else
    if k == 22 then "gitlab_merge_conflict" else
    if k == 23 then "local_git_error" else
    if k == 24 then "local_git_command_error" else
    if k == 25 then "unknown_error" else
    ""
  }

  /**
    The severity, category and retry policy of the `_add_error_metadata` call
    at position `k` of `_initialize_metadata`; None past the table.
  */
  function PolicyAt(k: int): Option<Policy> {
    if k == 0 then  // network_error
      Some(Policy(Medium, Network, true, 1.0, 3))
    else if k == 1 then  // timeout_error
      Some(Policy(Medium, Network, true, 2.0, 3))
    else if k == 2 then  // connection_reset_error
      Some(Policy(Medium, Network, true, 1.5, 3))
    else if k == 3 then  // dns_error
      Some(Policy(High, Network, true, 5.0, 2))
    else if k == 4 then  // ssl_error
      Some(Policy(High, Network, true, 3.0, 2))
    else if k == 5 then  // authentication_error
      Some(Policy(High, Authentication, false, 0.0, 0))
    else if k == 6 then  // github_2fa_error
      Some(Policy(High, Authentication, false, 0.0, 0))
    else if k == 7 then  // authorization_error
      Some(Policy(High, Authorization, false, 0.0, 0))
    else if k == 8 then  // permission_denied_error
      Some(Policy(High, Authorization, false, 0.0, 0))
    else if k == 9 then  // validation_error
      Some(Policy(Medium, Validation, false, 0.0, 0))
    else if k == 10 then  // invalid_input_error
      Some(Policy(Medium, Validation, false, 0.0, 0))
    else if k == 11 then  // not_found_error
      Some(Policy(Medium, Validation, false, 0.0, 0))
    else if k == 12 then  // configuration_error
      Some(Policy(High, Configuration, false, 0.0, 0))
    else if k == 13 then  // file_not_found_error
      Some(Policy(Medium, FileSystem, false, 0.0, 0))
    else if k == 14 then  // file_access_error
      Some(Policy(Medium, FileSystem, false, 0.0, 0))
    else if k == 15 then  // disk_space_error
      Some(Policy(High, FileSystem, false, 0.0, 0))
    else if k == 16 then  // github_ssh_error
      Some(Policy(High, Security, true, 2.0, 2))
    else if k == 17 then  // gitlab_ssh_error
      Some(Policy(High, Security, true, 2.0, 2))
    else if k == 18 then  // server_error
      Some(Policy(High, Api, true, 3.0, 3))
    else if k == 19 then  // rate_limit_error
      Some(Policy(Medium, Api, true, 60.0, 1))
    else if k == 20 then  // temporary_error
      Some(Policy(Medium, Api, true, 2.0, 3))
    else if k == 21 then  // github_merge_conflict
      Some(Policy(Medium, Provider, false, 0.0, 0))
    else if k == 22 then  // gitlab_merge_conflict
      Some(Policy(Medium, Provider, false, 0.0, 0))
    else if k == 23 then  // local_git_error
      Some(Policy(Medium, Local, false, 0.0, 0))
    else if k == 24 then  // local_git_command_error
      Some(Policy(Medium, Local, false, 0.0, 0))
    else if k == 25 then  // unknown_error
      Some(Policy(Medium, Unknown, false, 0.0, 0))
    else None
  }

  /** The description, keywords and patterns of the call at position `k`. */
  function TextsAt(k: int): Texts {
    if k == 0 then  // network_error
      Texts("General network connectivity error",
        ["network", "connection", "timeout"],
        ["network.*error", "connection.*failed", "timeout"])
    else if k == 1 then  // timeout_error
      Texts("Request timeout error",
        ["timeout", "timed out", "deadline"],
        ["timeout", "timed out", "deadline exceeded"])
    else if k == 2 then  // connection_reset_error
      Texts("Connection was reset by peer",
        ["connection reset", "reset by peer"],
        ["connection.*reset", "reset by peer"])
    else if k == 3 then  // dns_error
      Texts("DNS resolution error",
        ["dns", "name resolution", "hostname"],
        ["dns.*error", "name resolution", "hostname.*not found"])
    else if k == 4 then  // ssl_error
      Texts("SSL/TLS connection error",
        ["ssl", "tls", "certificate"],
        ["ssl.*error", "tls.*error", "certificate.*error"])
    else if k == 5 then  // authentication_error
      Texts("Authentication failed",
        ["auth", "login", "credentials", "token"],
        ["auth.*failed", "invalid.*credentials", "unauthorized"])
    else if k == 6 then  // github_2fa_error
      Texts("GitHub 2FA authentication required",
        ["2fa", "two factor", "otp", "totp"],
        ["2fa.*required", "two.*factor", "otp.*required"])
    else if k == 7 then  // authorization_error
      Texts("Authorization failed",
        ["forbidden", "access denied", "permission"],
        ["forbidden", "access.*denied", "permission.*denied"])
    else if k == 8 then  // permission_denied_error
      Texts("Permission denied",
        ["permission", "denied", "access"],
        ["permission.*denied", "access.*denied"])
    else if k == 9 then  // validation_error
      Texts("Input validation error",
        ["validation", "invalid", "bad request"],
        ["validation.*error", "invalid.*input", "bad.*request"])
    else if k == 10 then  // invalid_input_error
      Texts("Invalid input provided",
        ["invalid", "input", "malformed"],
        ["invalid.*input", "malformed.*request"])
    else if k == 11 then  // not_found_error
      Texts("Resource not found",
        ["not found", "404", "missing"],
        ["not.*found", "404", "missing.*resource"])
    else if k == 12 then  // configuration_error
      Texts("Configuration error",
        ["config", "configuration", "setup"],
        ["config.*error", "configuration.*error", "setup.*error"])
    else if k == 13 then  // file_not_found_error
      Texts("File not found",
        ["file", "not found", "missing"],
        ["file.*not.*found", "no.*such.*file"])
    else if k == 14 then  // file_access_error
      Texts("File access error",
        ["file", "access", "permission"],
        ["file.*access", "permission.*denied"])
    else if k == 15 then  // disk_space_error
      Texts("Insufficient disk space",
        ["disk", "space", "full"],
        ["disk.*space", "no.*space", "device.*full"])
    else if k == 16 then  // github_ssh_error
      Texts("GitHub SSH authentication error",
        ["ssh", "github", "key"],
        ["ssh.*error", "github.*ssh", "key.*error"])
    else if k == 17 then  // gitlab_ssh_error
      Texts("GitLab SSH authentication error",
        ["ssh", "gitlab", "key"],
        ["ssh.*error", "gitlab.*ssh", "key.*error"])
    else if k == 18 then  // server_error
      Texts("Server error",
        ["server", "error", "500"],
        ["server.*error", "500", "internal.*error"])
    else if k == 19 then  // rate_limit_error
      Texts("Rate limit exceeded",
        ["rate", "limit", "quota", "throttle"],
        ["rate.*limit", "quota.*exceeded", "throttle"])
    else if k == 20 then  // temporary_error
      Texts("Temporary service error",
        ["temporary", "service", "unavailable"],
        ["temporary", "service.*unavailable", "try.*again"])
    else if k == 21 then  // github_merge_conflict
      Texts("GitHub merge conflict",
        ["merge", "conflict", "github"],
        ["merge.*conflict", "conflict.*github"])
    else if k == 22 then  // gitlab_merge_conflict
      Texts("GitLab merge conflict",
        ["merge", "conflict", "gitlab"],
        ["merge.*conflict", "conflict.*gitlab"])
    else if k == 23 then  // local_git_error
      Texts("Local Git operation error",
        ["git", "local", "command"],
        ["git.*error", "local.*git"])
    else if k == 24 then  // local_git_command_error
      Texts("Local Git command error",
        ["git", "command", "failed"],
        ["git.*command", "command.*failed"])
    else if k == 25 then  // unknown_error
      Texts("Unknown error type",
        ["unknown", "unexpected", "error"],
        ["unknown", "unexpected", "error"])
    else Texts("", [], [])
  }

  /**
    The slot of the registry's dictionary that a lookup of `id` probes: a
    dispatch on the key's length and a few of its characters that separates
    the 26 registered ids. As in a hash table, the lookup then compares the
    key stored in that slot with `id`, so the slot alone decides nothing.
  */
  function Slot(id: ErrorTypeId): int {
    var n := |id|;
    if n == 9 then (if id[0] == 'd' then 3 else 4)
    else if n == 12 then 18
    else if n == 13 then (if id[0] == 'n' then 0 else if id[0] == 't' then 1 else 25)
    else if n == 15 then (if id[0] == 'n' then 11 else if id[0] == 't' then 20 else 23)
    else if n == 16 then
      (if id[0] == 'v' then 9 else if id[0] == 'd' then 15 else if id[0] == 'r' then 19
       else if id[7] == '2' then 6 else if id[4] == 'a' then 17 else 16)
    else if n == 17 then 14
    else if n == 19 then (if id[0] == 'a' then 7 else if id[0] == 'i' then 10 else 12)
    else if n == 20 then (if id[0] == 'a' then 5 else 13)
    else if n == 21 then (if id[4] == 'u' then 21 else 22)
    else if n == 22 then 2
    else if n == 23 then (if id[0] == 'p' then 8 else 24)
    else -1
  }

  /** The position at which `_initialize_metadata` registers `id`, or -1 for an id it never registers. */
  function RegistrationIndex(id: ErrorTypeId): (k: int)
    ensures -1 <= k < 26
    ensures 0 <= k ==> IdAt(k) == id
  {
    var k := Slot(id);
    if 0 <= k < 26 && IdAt(k) == id then k else -1
  }

  /** The severity, category and retry policy `_initialize_metadata` registers for `id`, if any. */
  function InitialPolicy(id: ErrorTypeId): Option<Policy> {
    PolicyAt(RegistrationIndex(id))
  }

  /** The description, keywords and patterns registered for `id`. */
  function InitialTexts(id: ErrorTypeId): Texts {
    TextsAt(RegistrationIndex(id))
  }

  /** The metadata `_initialize_metadata` registers for `id`, if any. */
  function InitialMetadata(id: ErrorTypeId): (m: Option<ErrorTypeMetadata>)
    ensures m.Some? <==> InitialPolicy(id).Some?
    ensures m.Some? ==> m.value.ToPolicy() == InitialPolicy(id).value
  {
    match InitialPolicy(id)
    case None => None
    case Some(p) =>
      var t := InitialTexts(id);
      Some(ErrorTypeMetadata(p.severity, p.category, p.isRetryable, p.retryDelay, p.maxRetries,
                             t.description, t.keywords, t.patterns))
  }

  /** Every position of the table holds a policy. */
  lemma PolicyAtDefined(k: int)
    ensures PolicyAt(k).Some? <==> 0 <= k < 26
  {
  }

  /** Each registered id is found at its own position. */
  lemma TableIndexed()
    ensures forall k | 0 <= k < 26 :: RegistrationIndex(IdAt(k)) == k
  {
    IndexedNetwork();
    IndexedAccess();
    IndexedValidation();
    IndexedFileSystem();
    IndexedSsh();
    IndexedApi();
    IndexedMergeConflicts();
    IndexedLocal();
  }

  /** Positions 0 to 4: the network errors. */
  lemma IndexedNetwork()
    ensures forall k | 0 <= k < 5 :: RegistrationIndex(IdAt(k)) == k
  {
  }

  /** Positions 5 to 8: the authentication and authorization errors. */
  lemma IndexedAccess()
    ensures forall k | 5 <= k < 9 :: RegistrationIndex(IdAt(k)) == k
  {
  }

  /** Positions 9 to 12: the validation and configuration errors. */
  lemma IndexedValidation()
    ensures forall k | 9 <= k < 13 :: RegistrationIndex(IdAt(k)) == k
  {
  }

  /** Positions 13 to 15: the file-system errors. */
  lemma IndexedFileSystem()
    ensures forall k | 13 <= k < 16 :: RegistrationIndex(IdAt(k)) == k
  {
  }

  /** Positions 16 and 17: the SSH errors. */
  lemma IndexedSsh()
    ensures forall k | 16 <= k < 18 :: RegistrationIndex(IdAt(k)) == k
  {
  }

  /** Positions 18 to 20: the API errors. */
  lemma IndexedApi()
    ensures forall k | 18 <= k < 21 :: RegistrationIndex(IdAt(k)) == k
  {
  }

  /** Positions 21 and 22: the merge conflicts. */
  lemma IndexedMergeConflicts()
    ensures forall k | 21 <= k < 23 :: RegistrationIndex(IdAt(k)) == k
  {
  }

  /** Positions 23 to 25: the local and unknown errors. */
  lemma IndexedLocal()
    ensures forall k | 23 <= k < 26 :: RegistrationIndex(IdAt(k)) == k
  {
  }

  /** An id gets -1 exactly when `_initialize_metadata` never registers it. */
  lemma UnregisteredIndex(id: ErrorTypeId)
    ensures RegistrationIndex(id) == -1 <==> forall k | 0 <= k < 26 :: IdAt(k) != id
  {
    TableIndexed();
  }

  /** Every registered id has a policy. */
  lemma TableIdsHaveMetadata()
    ensures forall k | 0 <= k < 26 :: InitialPolicy(IdAt(k)).Some?
  {
    TableIndexed();
    forall k | 0 <= k < 26 ensures InitialPolicy(IdAt(k)).Some? {
      PolicyAtDefined(k);
    }
  }

  /** The 26 `_add_error_metadata` calls of `_initialize_metadata`, in order. */
  function Table(): (t: seq<Entry>)
    ensures |t| == 26
    ensures forall i {:trigger t[i]} | 0 <= i < |t| :: t[i].id == IdAt(i) && Some(t[i].metadata) == InitialMetadata(t[i].id)
  {
    TableIdsHaveMetadata();
    seq(26, i requires 0 <= i < 26 => Entry(IdAt(i), InitialMetadata(IdAt(i)).value))
  }

  /** Every id with initial metadata sits in the table at its registration index. */
  lemma RegisteredAtIndex(id: ErrorTypeId)
    requires InitialPolicy(id).Some?
    ensures 0 <= RegistrationIndex(id) < |Table()|
    ensures Table()[RegistrationIndex(id)].id == id
  {
    PolicyAtDefined(RegistrationIndex(id));
  }

  /** No id is registered twice. */
  lemma TableIdsUnique()
    ensures UniqueIds(Table())
  {
    TableIndexed();
  }

  // ---------------------------------------------------------------------------
  // The global registry and the module-level helpers
  // ---------------------------------------------------------------------------

  /** `error_type_registry`, the registry built once at module load. */
  function GlobalRegistry(): Registry {
    Build(Table())
  }

  lemma {:induction false} UniqueIdSetSize(entries: seq<Entry>)
    requires UniqueIds(entries)
    ensures |IdSet(entries)| == |entries|
    decreases |entries|
  {
    if |entries| > 0 {
      var n := |entries| - 1;
      var prefix := entries[..n];
      assert UniqueIds(prefix) by {
        forall i, j | 0 <= i < j < n ensures prefix[i].id != prefix[j].id {
          assert prefix[i] == entries[i] && prefix[j] == entries[j];
        }
      }
      UniqueIdSetSize(prefix);
      IdSetSnoc(entries);
      assert entries[n].id !in IdSet(prefix) by {
        forall i | 0 <= i < n ensures prefix[i].id != entries[n].id {
          assert prefix[i] == entries[i];
        }
      }
    }
  }

  /** The global registry's indexes are consistent with its metadata. */
  lemma GlobalRegistryConsistent()
    ensures Consistent(GlobalRegistry())
  {
    TableIdsUnique();
    BuildConsistent(Table());
  }

  /**
    Looking an id up in the built registry gives exactly what the
    initialisation table says about it: its metadata if it was registered,
    None otherwise.
  */
  lemma GlobalLookup(id: ErrorTypeId)
    ensures GetMetadata(GlobalRegistry(), id) == InitialMetadata(id)
  {
    if InitialPolicy(id).Some? {
      RegisteredLookup(id);
    } else {
      UnregisteredLookup(id);
    }
  }

  lemma RegisteredLookup(id: ErrorTypeId)
    requires InitialPolicy(id).Some?
    ensures GetMetadata(GlobalRegistry(), id) == InitialMetadata(id)
  {
    TableIdsUnique();
    RegisteredAtIndex(id);
    BuildLookup(Table(), RegistrationIndex(id));
  }

  lemma UnregisteredLookup(id: ErrorTypeId)
    requires InitialPolicy(id).None?
    ensures GetMetadata(GlobalRegistry(), id) == None
  {
    BuildKeys(Table());
    forall i | 0 <= i < |Table()| ensures Table()[i].id != id {
      TableIdsHaveMetadata();
    }
  }

  /** Exactly the 26 ids of the table are registered. */
  lemma RegisteredIds()
    ensures GetAllErrorTypes(GlobalRegistry()) == IdSet(Table())
    ensures |GetAllErrorTypes(GlobalRegistry())| == 26
  {
    TableIdsUnique();
    BuildKeys(Table());
    UniqueIdSetSize(Table());
  }

  function GetErrorMetadata(id: ErrorTypeId): (m: Option<ErrorTypeMetadata>)
    ensures m == InitialMetadata(id)
  {
    GlobalLookup(id);
    GetMetadata(GlobalRegistry(), id)
  }

  /** False for an unregistered id. */
  function IsRetryableError(id: ErrorTypeId): (b: bool)
    ensures b <==> InitialPolicy(id).Some? && InitialPolicy(id).value.isRetryable
  {
    var m := GetErrorMetadata(id);
    if m.Some? then m.value.isRetryable else false
  }

  /** 0.0 for an unregistered id. */
  function GetRetryDelay(id: ErrorTypeId): (d: real)
    ensures InitialPolicy(id).Some? ==> d == InitialPolicy(id).value.retryDelay
    ensures InitialPolicy(id).None? ==> d == 0.0
  {
    var m := GetErrorMetadata(id);
    if m.Some? then m.value.retryDelay else 0.0
  }

  /** 0 for an unregistered id. */
  function GetMaxRetries(id: ErrorTypeId): (n: int)
    ensures InitialPolicy(id).Some? ==> n == InitialPolicy(id).value.maxRetries
    ensures InitialPolicy(id).None? ==> n == 0
  {
    var m := GetErrorMetadata(id);
    if m.Some? then m.value.maxRetries else 0
  }

  /** None for an unregistered id. */
  function GetErrorSeverity(id: ErrorTypeId): (s: Option<ErrorSeverity>)
    ensures s.Some? <==> InitialPolicy(id).Some?
    ensures s.Some? ==> s.value == InitialPolicy(id).value.severity
  {
    var m := GetErrorMetadata(id);
    if m.Some? then Some(m.value.severity) else None
  }

  /** None for an unregistered id. */
  function GetErrorCategory(id: ErrorTypeId): (c: Option<ErrorCategory>)
    ensures c.Some? <==> InitialPolicy(id).Some?
    ensures c.Some? ==> c.value == InitialPolicy(id).value.category
  {
    var m := GetErrorMetadata(id);
    if m.Some? then Some(m.value.category) else None
  }

  // ---------------------------------------------------------------------------
  // Facts about the global registry
  // ---------------------------------------------------------------------------

  /**
    `get_errors_by_category(c)` holds exactly the registered ids of category
    `c`; `get_errors_by_severity(s)` exactly those of severity `s`.
  */
  lemma CategoryAndSeverityIndexes(c: ErrorCategory, s: ErrorSeverity, id: ErrorTypeId)
    ensures id in GetErrorsByCategory(GlobalRegistry(), c)
            <==> InitialPolicy(id).Some? && InitialPolicy(id).value.category == c
    ensures id in GetErrorsBySeverity(GlobalRegistry(), s)
            <==> InitialPolicy(id).Some? && InitialPolicy(id).value.severity == s
  {
    GlobalRegistryConsistent();
    GlobalLookup(id);
  }

  /**
    The retryable and non-retryable sets are disjoint, together hold every
    registered id, and split them by the `isRetryable` flag.
  */
  lemma RetryablePartition(id: ErrorTypeId)
    ensures GlobalRegistry().retryableErrors !! GlobalRegistry().nonRetryableErrors
    ensures GlobalRegistry().retryableErrors + GlobalRegistry().nonRetryableErrors
            == GetAllErrorTypes(GlobalRegistry())
    ensures id in GlobalRegistry().retryableErrors <==> IsRetryableError(id)
    ensures id in GlobalRegistry().nonRetryableErrors
            <==> InitialPolicy(id).Some? && !InitialPolicy(id).value.isRetryable
  {
    GlobalRegistryConsistent();
    GlobalLookup(id);
  }

  /** The table only uses MEDIUM and HIGH severities. */
  lemma TableSeverities(id: ErrorTypeId)
    requires InitialPolicy(id).Some?
    ensures InitialPolicy(id).value.severity in {Medium, High}
  {
    PolicySeverities(RegistrationIndex(id));
  }

  lemma PolicySeverities(k: int)
    requires PolicyAt(k).Some?
    ensures PolicyAt(k).value.severity in {Medium, High}
  {
  }

  /** No registered error type has severity LOW or CRITICAL. */
  lemma LowAndCriticalUnused()
    ensures GetErrorsBySeverity(GlobalRegistry(), Low) == {}
    ensures GetErrorsBySeverity(GlobalRegistry(), Critical) == {}
  {
    forall id | id in GetErrorsBySeverity(GlobalRegistry(), Low) ensures false {
      CategoryAndSeverityIndexes(Unknown, Low, id);
      TableSeverities(id);
    }
    forall id | id in GetErrorsBySeverity(GlobalRegistry(), Critical) ensures false {
      CategoryAndSeverityIndexes(Unknown, Critical, id);
      TableSeverities(id);
    }
  }

  /**
    Every registered retry policy is coherent: a retryable type waits a
    positive delay and allows at least one retry; a non-retryable one has a
    zero delay and zero retries.
  */
  lemma RetryPolicyCoherent(id: ErrorTypeId)
    requires id in GetAllErrorTypes(GlobalRegistry())
    ensures IsRetryableError(id) ==> GetRetryDelay(id) > 0.0 && GetMaxRetries(id) >= 1
    ensures !IsRetryableError(id) ==> GetRetryDelay(id) == 0.0 && GetMaxRetries(id) == 0
  {
    GlobalLookup(id);
    TableRetryPolicy(id);
  }

  lemma TableRetryPolicy(id: ErrorTypeId)
    requires InitialPolicy(id).Some?
    ensures InitialPolicy(id).value.isRetryable ==> InitialPolicy(id).value.retryDelay > 0.0
    ensures InitialPolicy(id).value.isRetryable ==> InitialPolicy(id).value.maxRetries >= 1
    ensures !InitialPolicy(id).value.isRetryable ==> InitialPolicy(id).value.retryDelay == 0.0
    ensures !InitialPolicy(id).value.isRetryable ==> InitialPolicy(id).value.maxRetries == 0
  {
    var k := RegistrationIndex(id);
    RetryableTableDelay(k);
    RetryableTableRetries(k);
    NonRetryableTableDelay(k);
    NonRetryableTableRetries(k);
  }

  lemma RetryableTableDelay(k: int)
    requires PolicyAt(k).Some?
    ensures PolicyAt(k).value.isRetryable ==> PolicyAt(k).value.retryDelay > 0.0
  {
  }

  lemma RetryableTableRetries(k: int)
    requires PolicyAt(k).Some?
    ensures PolicyAt(k).value.isRetryable ==> PolicyAt(k).value.maxRetries >= 1
  {
  }

  lemma NonRetryableTableDelay(k: int)
    requires PolicyAt(k).Some?
    ensures !PolicyAt(k).value.isRetryable ==> PolicyAt(k).value.retryDelay == 0.0
  {
  }

  lemma NonRetryableTableRetries(k: int)
    requires PolicyAt(k).Some?
    ensures !PolicyAt(k).value.isRetryable ==> PolicyAt(k).value.maxRetries == 0
  {
  }

  /** The catch-all type: MEDIUM severity, UNKNOWN category, never retried. */
  lemma UnknownErrorRegistered()
    ensures GetErrorSeverity("unknown_error") == Some(Medium)
    ensures GetErrorCategory("unknown_error") == Some(Unknown)
    ensures !IsRetryableError("unknown_error")
    ensures GetRetryDelay("unknown_error") == 0.0 && GetMaxRetries("unknown_error") == 0
  {
    UnknownErrorPolicy();
  }

  lemma UnknownErrorPolicy()
    ensures InitialPolicy("unknown_error") == Some(Policy(Medium, Unknown, false, 0.0, 0))
  {
  }

  /**
    Any id absent from the registry (for instance a member declared in the
    error enums but never registered) gets every helper's default.
  */
  lemma UnregisteredDefaults(id: ErrorTypeId)
    requires id !in GetAllErrorTypes(GlobalRegistry())
    ensures GetErrorMetadata(id) == None
    ensures !IsRetryableError(id)
    ensures GetRetryDelay(id) == 0.0
    ensures GetMaxRetries(id) == 0
    ensures GetErrorSeverity(id) == None
    ensures GetErrorCategory(id) == None
  {
    GlobalLookup(id);
  }

  /** `PROXY_ERROR` is declared in the network enum but never registered. */
  lemma ProxyErrorUnregistered()
    ensures "proxy_error" !in GetAllErrorTypes(GlobalRegistry())
    ensures GetErrorSeverity("proxy_error") == None && !IsRetryableError("proxy_error")
  {
    assert RegistrationIndex("proxy_error") == -1;
    UnregisteredLookup("proxy_error");
  }
}
