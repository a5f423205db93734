/** How the agent finds the dataset of a request: the datasets it is configured with,
    and the provider picked for a database type. */
module Routing {
  import opened Common
  import opened Text
  import opened Paths
  import opened Zfs

  // ---- configuration ----

  /** One `type:dataset` entry, nothing if it lacks the colon or either side. */
  function ParseEntry(entry: string): Option<(string, string)> {
    var e := TrimSpace(entry);
    var k := IndexOf(e, ':');
    if k < |e| && k > 0 && k + 1 < |e| then Some((e[..k], e[k + 1..])) else None
  }

  /** A later entry for a type replaces an earlier one. */
  function ParseEntries(entries: seq<string>): map<string, string> {
    if entries == [] then map[]
    else
      var init := ParseEntries(entries[..|entries| - 1]);
      match ParseEntry(entries[|entries| - 1])
      case None => init
      case Some(kv) => init[kv.0 := kv.1]
  }

  function Parsed(raw: string): map<string, string> {
    if raw == "" then map[] else ParseEntries(Split(raw, ','))
  }

  method ParseDatasets(raw: string) returns (result: map<string, string>)
    ensures result == Parsed(raw)
  {
    result := map[];
    if raw == "" { return; }
    var entries := Split(raw, ',');
    var i := 0;
    while i < |entries|
      invariant 0 <= i <= |entries| && result == ParseEntries(entries[..i])
    {
      assert entries[..i + 1][..i] == entries[..i];
      var entry := TrimSpace(entries[i]);
      var colon := IndexOf(entry, ':');
      if colon < |entry| {
        var key, value := entry[..colon], entry[colon + 1..];
        if key != "" && value != "" {
          result := result[key := value];
        }
      }
      i := i + 1;
    }
    assert entries[..|entries|] == entries;
  }

  function EnvOr(value: string, default: string): string {
    if value != "" then value else default
  }

  /** The datasets of the agent; `pool` and `dataset` are the two older variables. */
  method LoadDatasets(raw: string, pool: string, dataset: string) returns (datasets: map<string, string>)
    ensures datasets != map[]
    ensures datasets == if Parsed(raw) != map[] then Parsed(raw)
                        else map["mysql" := (if pool != "" then pool else "tank") + "/" +
                                            (if dataset != "" then dataset else "mysql")]
  {
    datasets := ParseDatasets(raw);
    if datasets == map[] {
      datasets := map["mysql" := EnvOr(pool, "tank") + "/" + EnvOr(dataset, "mysql")];
      assert "mysql" in datasets;
    }
  }

  // ---- the handler ----

  datatype Handler = Handler(providers: map<string, string>, defaultType: string)

  /** One provider for each configured type; a provider is known by its dataset. */
  method BuildProviders(datasets: map<string, string>) returns (providers: map<string, string>)
    ensures providers == datasets
  {
    providers := map[];
    var rest := datasets.Keys;
    while rest != {}
      invariant rest <= datasets.Keys
      invariant providers == map t | t in datasets && t !in rest :: datasets[t]
      decreases |rest|
    {
      var t :| t in rest;
      providers := providers[t := datasets[t]];
      rest := rest - {t};
    }
  }

  /** The default type is the first one met, in an order nobody promises. */
  method NewHandler(providers: map<string, string>) returns (h: Handler)
    ensures h.providers == providers
    ensures if providers == map[] then h.defaultType == "" else h.defaultType in providers
  {
    var defaultType := "";
    if providers != map[] {
      assert providers.Keys != {};
      defaultType :| defaultType in providers;
    }
    h := Handler(providers, defaultType);
  }

  /** The provider for the db_type of a request; None stands for no provider at all. */
  function Pick(h: Handler, dbType: string): Option<string> {
    var t := if dbType == "" then h.defaultType else dbType;
    if t in h.providers then Some(h.providers[t])
    else if h.defaultType in h.providers then Some(h.providers[h.defaultType])
    else None
  }

  /** Whatever the configuration says, every request of a handler built from it finds a
      provider; a configured type finds its own, any other falls back to the default. */
  method RouteFromConfiguration(raw: string, pool: string, dataset: string, dbType: string)
    returns (h: Handler, picked: string)
    ensures Pick(h, dbType) == Some(picked)
    ensures dbType in h.providers && dbType != "" ==> picked == h.providers[dbType]
    ensures dbType !in h.providers || dbType == "" ==>
              h.defaultType in h.providers && picked == h.providers[h.defaultType]
    ensures h.providers == if Parsed(raw) != map[] then Parsed(raw)
                           else map["mysql" := EnvOr(pool, "tank") + "/" + EnvOr(dataset, "mysql")]
  {
    var datasets := LoadDatasets(raw, pool, dataset);
    var providers := BuildProviders(datasets);
    h := NewHandler(providers);
    picked := Pick(h, dbType).value;
  }

  // ---- printing and parsing ----

  /** What the format can express: no comma, no colon in the type, no white space at
      the outer ends. */
  predicate Printable(entry: (string, string)) {
    && entry.0 != "" && entry.1 != ""
    && ':' !in entry.0 && ',' !in entry.0 && ',' !in entry.1
    && !IsSpace(entry.0[0]) && !IsSpace(entry.1[|entry.1| - 1])
  }

  function PrintEntry(entry: (string, string)): string {
    entry.0 + ":" + entry.1
  }

  function MapOf(entries: seq<(string, string)>): map<string, string> {
    if entries == [] then map[]
    else MapOf(entries[..|entries| - 1])[entries[|entries| - 1].0 := entries[|entries| - 1].1]
  }

  /** What an entry is: white space, a type without a colon, a colon, a dataset, white
      space.  Any other is skipped: without a colon, without a type or without a dataset. */
  lemma EntryExactly(entry: string, key: string, value: string)
    ensures ParseEntry(entry) == Some((key, value)) <==>
              key != "" && value != "" && ':' !in key && TrimSpace(entry) == key + ":" + value
    ensures ParseEntry(entry).None? <==>
              var e := TrimSpace(entry);
              ':' !in e || e[0] == ':' || (e[|e| - 1] == ':' && ':' !in e[..|e| - 1])
  {
    var e := TrimSpace(entry);
    var k := IndexOf(e, ':');
    assert k == |e| ==> ':' !in e;
    if k < |e| {
      assert e == e[..k] + ":" + e[k + 1..] && ':' !in e[..k];
    }
    if e == key + ":" + value && ':' !in key {
      IndexOfAt(key, ':', value);
      assert e == key + [':'] + value && e[..|key|] == key && e[|key| + 1..] == value;
    }
  }

  lemma PaddedEntry(before: string, entry: (string, string), after: string)
    requires Printable(entry) && Blank(before) && Blank(after)
    ensures var e := before + PrintEntry(entry) + after; ParseEntry(e) == Some(entry) && ',' !in e
  {
    var e := PrintEntry(entry);
    assert e[0] == entry.0[0] && e[|e| - 1] == entry.1[|entry.1| - 1];
    TrimPadded(before, e, after);
    EntryExactly(before + e + after, entry.0, entry.1);
  }

  lemma {:induction false} EntriesReadBack(printed: seq<string>, entries: seq<(string, string)>)
    requires |printed| == |entries| && forall i | 0 <= i < |entries| :: ParseEntry(printed[i]) == Some(entries[i])
    ensures ParseEntries(printed) == MapOf(entries)
  {
    if entries != [] {
      EntriesReadBack(printed[..|printed| - 1], entries[..|entries| - 1]);
    }
  }

  lemma JoinedReadBack(printed: seq<string>, entries: seq<(string, string)>)
    requires |printed| == |entries|
    requires forall i | 0 <= i < |entries| :: ParseEntry(printed[i]) == Some(entries[i]) && ',' !in printed[i]
    ensures Parsed(Join(printed, ",")) == MapOf(entries)
  {
    if entries != [] {
      SplitJoin(printed, ',');
      EntriesReadBack(printed, entries);
      assert printed[0] != "";
      assert Join(printed, ",") != "" by {
        assert |printed| > 1 ==> Join(printed, ",") == printed[0] + "," + Join(printed[1..], ",");
      }
    }
  }

  /** A malformed entry counts for nothing, wherever it stands. */
  lemma {:induction false} MalformedSkipped(front: seq<string>, entry: string, back: seq<string>)
    requires ParseEntry(entry).None?
    ensures ParseEntries(front + [entry] + back) == ParseEntries(front + back)
  {
    var all, rest := front + [entry] + back, front + back;
    if back == [] {
      assert all[..|all| - 1] == front && rest == front;
    } else {
      var init := back[..|back| - 1];
      assert all[..|all| - 1] == front + [entry] + init && rest[..|rest| - 1] == front + init;
      MalformedSkipped(front, entry, init);
    }
  }

  /** `entries` lists the map, each type once, in any order. */
  ghost predicate Lists(m: map<string, string>, entries: seq<(string, string)>) {
    && (forall i, j | 0 <= i < j < |entries| :: entries[i].0 != entries[j].0)
    && (forall i | 0 <= i < |entries| :: entries[i].0 in m && m[entries[i].0] == entries[i].1)
    && (forall t | t in m :: exists i :: 0 <= i < |entries| && entries[i].0 == t)
  }

  lemma {:induction false} MapOfKeys(entries: seq<(string, string)>, t: string)
    ensures t in MapOf(entries) <==> exists i :: 0 <= i < |entries| && entries[i].0 == t
  {
    if entries == [] {
    } else {
      var init := entries[..|entries| - 1];
      MapOfKeys(init, t);
      if t in MapOf(init) {
        var i :| 0 <= i < |init| && init[i].0 == t;
        assert entries[i].0 == t;
      }
      assert entries[|entries| - 1].0 == t ==> t in MapOf(entries);
      assert forall i | 0 <= i < |entries| - 1 :: entries[i] == init[i];
    }
  }

  lemma {:induction false} MapOfValues(entries: seq<(string, string)>, m: map<string, string>)
    requires forall i | 0 <= i < |entries| :: entries[i].0 in m && m[entries[i].0] == entries[i].1
    ensures forall t | t in MapOf(entries) :: t in m && MapOf(entries)[t] == m[t]
  {
    if entries == [] {
    } else {
      MapOfValues(entries[..|entries| - 1], m);
    }
  }

  /** The entries with white space round each. */
  function Padded(before: seq<string>, entries: seq<(string, string)>, after: seq<string>): seq<string>
    requires |before| == |entries| == |after|
  {
    seq(|entries|, i requires 0 <= i < |entries| => before[i] + PrintEntry(entries[i]) + after[i])
  }

  /** Any map of printable entries, printed in any order and with any white space round
      the entries, parses back to itself. */
  lemma ConfigurationRoundTrip(
      m: map<string, string>, before: seq<string>, entries: seq<(string, string)>, after: seq<string>)
    requires Lists(m, entries) && forall i | 0 <= i < |entries| :: Printable(entries[i])
    requires |before| == |entries| == |after| && forall i | 0 <= i < |entries| :: Blank(before[i]) && Blank(after[i])
    ensures Parsed(Join(Padded(before, entries, after), ",")) == m
  {
    var printed := Padded(before, entries, after);
    forall i | 0 <= i < |entries| ensures ParseEntry(printed[i]) == Some(entries[i]) && ',' !in printed[i] {
      PaddedEntry(before[i], entries[i], after[i]);
    }
    JoinedReadBack(printed, entries);
    MapOfValues(entries, m);
    forall t ensures t in m <==> t in MapOf(entries) {
      MapOfKeys(entries, t);
    }
  }

  // ---- isolation ----

  /** No configured dataset lies below another. */
  predicate Apart(h: Handler) {
    forall t, u | t in h.providers && u in h.providers && h.providers[t] != h.providers[u] ::
      !Under(h.providers[t], h.providers[u])
  }

  /** Any number of commands on the dataset of one configured type leave the snapshots
      and clones of a type on another dataset alone, and name nothing below that dataset. */
  lemma RoutedApart(h: Handler, t: string, u: string, pools: seq<Pool>, commands: seq<Command>, name: string)
    requires Apart(h) && t in h.providers && u in h.providers && t != "" && u != ""
    requires h.providers[t] != h.providers[u]
    requires Executes(pools, commands) && Preserved(pools[0])
    requires forall k | 0 <= k < |commands| :: Some(Target(commands[k])) == Pick(h, t)
    ensures var d, p, q := Pick(h, u).value, pools[0], pools[|commands|];
            && (forall s: SnapId | s.dataset == d ::
                  (s in p.snaps <==> s in q.snaps) && (s in p.snaps ==> p.snaps[s] == q.snaps[s]))
            && (forall c: CloneId | c.dataset == d ::
                  (c in p.clones <==> c in q.clones) && (c in p.clones ==> p.clones[c] == q.clones[c]))
    ensures var d, e := Pick(h, t).value, Pick(h, u).value;
            !Under(SnapPath(d, name), e) && !Under(ClonePath(d, name), e)
  {
    var d, e := h.providers[t], h.providers[u];
    RunIsolated(pools, commands, d, |commands|);
    PathsUnder(d, name);
    PathsApart(SnapPath(d, name), d, e);
    PathsApart(ClonePath(d, name), d, e);
  }
}
