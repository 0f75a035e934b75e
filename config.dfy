/**
  The configuration loader (`load_config`): a parsed configuration file is
  completed with the built-in defaults. Every default is a table of
  sub-defaults; a table missing from the file is added whole, and a table
  present in the file gets each missing sub-key added. Any exception on the
  way (a value that does not support `in` or item assignment) makes the
  loader fall back to the defaults.
 */
module Config {
  import opened Wrappers
  import opened Text

  /** A parsed JSON value. */
  datatype Json =
    | JNull
    | JBool(b: bool)
    | JNum(n: int)
    | JStr(s: string)
    | JArr(items: seq<Json>)
    | JObj(fields: map<string, Json>)

  /** A table of defaults, in the order they are filled in. */
  type Table = seq<(string, Json)>

  /** The default tables, in order. */
  const DefaultTables: seq<(string, Table)> := [
    ("spotify", [("client_id", JStr("")), ("client_secret", JStr(""))]),
    ("settings", [("download_folder", JStr("spotify_downloads")), ("max_workers", JNum(3))])
  ]

  function KeysOf(subs: Table): set<string> {
    if subs == [] then {} else {subs[0].0} + KeysOf(subs[1..])
  }

  /** The default a table gives for `k` (its first entry for `k`). */
  function Lookup(subs: Table, k: string): Json
    requires k in KeysOf(subs)
  {
    if subs[0].0 == k then subs[0].1 else Lookup(subs[1..], k)
  }

  /** A table as the dictionary it stands for. */
  function TableJson(subs: Table): map<string, Json> {
    map k | k in KeysOf(subs) :: Lookup(subs, k)
  }

  function TableKeys(tables: seq<(string, Table)>): set<string> {
    if tables == [] then {} else {tables[0].0} + TableKeys(tables[1..])
  }

  /** The sub-defaults of the table named `k`. */
  function SubsOf(tables: seq<(string, Table)>, k: string): Table
    requires k in TableKeys(tables)
  {
    if tables[0].0 == k then tables[0].1 else SubsOf(tables[1..], k)
  }

  predicate DistinctKeys(tables: seq<(string, Table)>) {
    forall i, j :: 0 <= i < j < |tables| ==> tables[i].0 != tables[j].0
  }

  /** Every table as a whole dictionary. */
  function WholeTables(tables: seq<(string, Table)>): map<string, Json> {
    map k | k in TableKeys(tables) :: JObj(TableJson(SubsOf(tables, k)))
  }

  /** The configuration used when there is no usable file. */
  function DefaultConfig(): Json {
    JObj(WholeTables(DefaultTables))
  }

  /** Python's `key in v`: key membership for an object, element membership
      for an array, the substring test for a string; None where it raises. */
  function Member(key: string, v: Json): (r: Option<bool>)
    ensures r.None? <==> !(v.JObj? || v.JArr? || v.JStr?)
  {
    match v
    case JObj(f) => Some(key in f)
    case JArr(xs) => Some(JStr(key) in xs)
    case JStr(s) => Some(Contains(s, key))
    case _ => None
  }

  /** The sub-key loop for one present table, step by step as the program
      runs it; None where it raises. */
  function FillTable(v: Json, subs: Table): Option<Json>
    decreases |subs|
  {
    if subs == [] then Some(v)
    else
      match Member(subs[0].0, v)
      case None => None
      case Some(present) =>
        if present then FillTable(v, subs[1..])
        else if v.JObj? then FillTable(JObj(v.fields[subs[0].0 := subs[0].1]), subs[1..])
        else None
  }

  /** The table loop, step by step as the program runs it; None where it raises. */
  function MergeTables(cfg: Json, tables: seq<(string, Table)>): Option<Json>
    decreases |tables|
  {
    if tables == [] then Some(cfg)
    else
      var key := tables[0].0;
      var subs := tables[0].1;
      match Member(key, cfg)
      case None => None
      case Some(present) =>
        if !cfg.JObj? then None
        else if !present then MergeTables(JObj(cfg.fields[key := JObj(TableJson(subs))]), tables[1..])
        else
          match FillTable(cfg.fields[key], subs)
          case None => None
          case Some(v) => MergeTables(JObj(cfg.fields[key := v]), tables[1..])
  }

  // ---------------------------------------------------------------------
  // The merge in closed form

  /** A present value survives the sub-key loop: an object always does;
      anything else only when every sub-key is already `in` it. */
  predicate Fillable(v: Json, subs: Table) {
    v.JObj? || forall j :: 0 <= j < |subs| ==> Member(subs[j].0, v) == Some(true)
  }

  /** An object keeps its entries and gains the missing sub-defaults; any
      other value is left as it is. */
  function FillClosed(v: Json, subs: Table): Json {
    match v
    case JObj(f) => JObj(map k | k in f.Keys + KeysOf(subs) :: if k in f then f[k] else Lookup(subs, k))
    case _ => v
  }

  /** No table present in the file holds a value the merge raises on. */
  predicate TopMergeable(m: map<string, Json>, tables: seq<(string, Table)>) {
    forall i :: 0 <= i < |tables| && tables[i].0 in m ==> Fillable(m[tables[i].0], tables[i].1)
  }

  /** The merged configuration: missing tables added whole, present tables filled. */
  function MergedFields(m: map<string, Json>, tables: seq<(string, Table)>): map<string, Json> {
    map k | k in m.Keys + TableKeys(tables) ::
      if k !in TableKeys(tables) then m[k]
      else if k in m then FillClosed(m[k], SubsOf(tables, k))
      else JObj(TableJson(SubsOf(tables, k)))
  }

  lemma {:induction false} FillTableClosed(v: Json, subs: Table)
    ensures FillTable(v, subs) == if Fillable(v, subs) then Some(FillClosed(v, subs)) else None
    decreases |subs|
  {
    if subs == [] {
      if v.JObj? {
        assert FillClosed(v, subs).fields == v.fields;
      }
    } else {
      var sk := subs[0].0;
      var rest := subs[1..];
      assert forall j :: 1 <= j < |subs| ==> subs[j] == rest[j - 1];
      match Member(sk, v)
      case None =>
        assert !Fillable(v, subs);
      case Some(present) =>
        if present {
          FillTableClosed(v, rest);
          assert Fillable(v, subs) == Fillable(v, rest);
          if v.JObj? {
            assert FillClosed(v, subs).fields == FillClosed(v, rest).fields;
          }
        } else if v.JObj? {
          var v' := JObj(v.fields[sk := subs[0].1]);
          FillTableClosed(v', rest);
          assert FillClosed(v', rest).fields == FillClosed(v, subs).fields;
        } else {
          assert !Fillable(v, subs);
        }
    }
  }

  lemma {:induction false} NotInTableKeys(tables: seq<(string, Table)>, k: string)
    requires forall i :: 0 <= i < |tables| ==> tables[i].0 != k
    ensures k !in TableKeys(tables)
    decreases |tables|
  {
    if tables != [] {
      NotInTableKeys(tables[1..], k);
    }
  }

  /** The value the closed form gives the first table. */
  function FirstTableValue(m: map<string, Json>, tables: seq<(string, Table)>): Json
    requires tables != []
  {
    if tables[0].0 in m then FillClosed(m[tables[0].0], tables[0].1) else JObj(TableJson(tables[0].1))
  }

  lemma RestLacksFirstKey(tables: seq<(string, Table)>)
    requires DistinctKeys(tables) && tables != []
    ensures DistinctKeys(tables[1..])
    ensures tables[0].0 !in TableKeys(tables[1..])
  {
    assert forall j :: 1 <= j < |tables| ==> tables[j] == tables[1..][j - 1];
    NotInTableKeys(tables[1..], tables[0].0);
  }

  /** Filling the first table and merging the rest is merging all. */
  lemma MergedFieldsShift(m: map<string, Json>, tables: seq<(string, Table)>)
    requires DistinctKeys(tables) && tables != []
    ensures MergedFields(m[tables[0].0 := FirstTableValue(m, tables)], tables[1..]) == MergedFields(m, tables)
  {
    var m' := m[tables[0].0 := FirstTableValue(m, tables)];
    var lhs := MergedFields(m', tables[1..]);
    var rhs := MergedFields(m, tables);
    assert lhs.Keys == rhs.Keys;
    forall k | k in rhs ensures lhs[k] == rhs[k] {
      MergedFieldsShiftAt(m, tables, k);
    }
  }

  lemma MergedFieldsShiftAt(m: map<string, Json>, tables: seq<(string, Table)>, k: string)
    requires DistinctKeys(tables) && tables != []
    requires k in m.Keys + TableKeys(tables)
    ensures var m' := m[tables[0].0 := FirstTableValue(m, tables)];
            k in MergedFields(m', tables[1..]) && MergedFields(m', tables[1..])[k] == MergedFields(m, tables)[k]
  {
    var key := tables[0].0;
    var rest := tables[1..];
    RestLacksFirstKey(tables);
    if k != key && k in TableKeys(rest) {
      assert SubsOf(tables, k) == SubsOf(rest, k);
    }
  }

  lemma TopMergeableShift(m: map<string, Json>, tables: seq<(string, Table)>)
    requires DistinctKeys(tables) && tables != []
    requires tables[0].0 in m ==> Fillable(m[tables[0].0], tables[0].1)
    ensures TopMergeable(m[tables[0].0 := FirstTableValue(m, tables)], tables[1..]) == TopMergeable(m, tables)
  {
    var key := tables[0].0;
    var rest := tables[1..];
    assert forall j :: 1 <= j < |tables| ==> tables[j] == rest[j - 1];
    assert forall j :: 0 <= j < |rest| ==> rest[j].0 != key;
  }

  /** The merge loop computes the closed form, or raises exactly when some
      present table holds a value the sub-key loop raises on. */
  lemma {:induction false} MergeTablesClosed(m: map<string, Json>, tables: seq<(string, Table)>)
    requires DistinctKeys(tables)
    ensures MergeTables(JObj(m), tables)
            == if TopMergeable(m, tables) then Some(JObj(MergedFields(m, tables))) else None
    decreases |tables|
  {
    if tables == [] {
      assert MergedFields(m, tables) == m;
    } else {
      var key := tables[0].0;
      var subs := tables[0].1;
      RestLacksFirstKey(tables);
      if key in m {
        FillTableClosed(m[key], subs);
      }
      if key in m && !Fillable(m[key], subs) {
        assert !TopMergeable(m, tables);
      } else {
        var m' := m[key := FirstTableValue(m, tables)];
        MergeTablesClosed(m', tables[1..]);
        TopMergeableShift(m, tables);
        MergedFieldsShift(m, tables);
      }
    }
  }

  // ---------------------------------------------------------------------
  // What the merge promises

  /** Every entry of the file survives: a table value that is an object keeps
      all its entries, and every other value stays exactly as it was. */
  predicate KeepsExisting(m: map<string, Json>, r: map<string, Json>) {
    forall k :: k in m ==>
      && k in r
      && (m[k].JObj? ==> r[k].JObj? && forall sk :: sk in m[k].fields ==>
            sk in r[k].fields && r[k].fields[sk] == m[k].fields[sk])
      && (!m[k].JObj? ==> r[k] == m[k])
  }

  /** Every default table is present: added whole when it was missing, and,
      when the file had it as an object, with every missing sub-key added. */
  predicate FillsDefaults(m: map<string, Json>, r: map<string, Json>, tables: seq<(string, Table)>) {
    forall i :: 0 <= i < |tables| ==>
      && tables[i].0 in r
      && (tables[i].0 !in m ==> r[tables[i].0] == JObj(TableJson(tables[i].1)))
      && (tables[i].0 in m && m[tables[i].0].JObj? ==>
            r[tables[i].0].JObj? && KeysOf(tables[i].1) <= r[tables[i].0].fields.Keys)
  }

  /** In a list of distinct tables, each name finds its own table. */
  lemma SubsOfDistinct(tables: seq<(string, Table)>, i: nat)
    requires DistinctKeys(tables) && i < |tables|
    ensures tables[i].0 in TableKeys(tables) && SubsOf(tables, tables[i].0) == tables[i].1
    decreases i
  {
    if i > 0 {
      assert forall j :: 1 <= j < |tables| ==> tables[j] == tables[1..][j - 1];
      assert DistinctKeys(tables[1..]);
      SubsOfDistinct(tables[1..], i - 1);
    }
  }

  /** The merge of the built-in defaults into a parsed file: None (the loader
      then falls back to the defaults) exactly when the file is not an
      object or a table it holds cannot be filled; otherwise the file's
      keys plus the table names, every existing entry kept, every default
      supplied. */
  lemma MergeKeepsAndFills(config: Json)
    ensures MergeTables(config, DefaultTables).None?
            <==> !config.JObj? || !TopMergeable(config.fields, DefaultTables)
    ensures MergeTables(config, DefaultTables).Some? ==>
      var r := MergeTables(config, DefaultTables).value;
      && r.JObj?
      && r.fields.Keys == config.fields.Keys + TableKeys(DefaultTables)
      && KeepsExisting(config.fields, r.fields)
      && FillsDefaults(config.fields, r.fields, DefaultTables)
  {
    assert DistinctKeys(DefaultTables);
    if config.JObj? {
      var m := config.fields;
      MergeTablesClosed(m, DefaultTables);
      if TopMergeable(m, DefaultTables) {
        var r := MergedFields(m, DefaultTables);
        assert KeepsExisting(m, r);
        forall i | 0 <= i < |DefaultTables|
          ensures DefaultTables[i].0 in r
          ensures DefaultTables[i].0 !in m ==> r[DefaultTables[i].0] == JObj(TableJson(DefaultTables[i].1))
          ensures DefaultTables[i].0 in m && m[DefaultTables[i].0].JObj? ==>
            r[DefaultTables[i].0].JObj? && KeysOf(DefaultTables[i].1) <= r[DefaultTables[i].0].fields.Keys
        {
          SubsOfDistinct(DefaultTables, i);
        }
      }
    }
  }

  /** The closed form never produces a value the merge raises on. */
  lemma MergedIsMergeable(m: map<string, Json>, tables: seq<(string, Table)>)
    requires DistinctKeys(tables) && TopMergeable(m, tables)
    ensures TopMergeable(MergedFields(m, tables), tables)
  {
    var r := MergedFields(m, tables);
    forall i | 0 <= i < |tables| && tables[i].0 in r
      ensures Fillable(r[tables[i].0], tables[i].1)
    {
      SubsOfDistinct(tables, i);
    }
  }

  /** A merged table holds every sub-key, so filling it again changes nothing. */
  lemma MergedIsFixed(m: map<string, Json>, tables: seq<(string, Table)>)
    requires DistinctKeys(tables)
    ensures MergedFields(MergedFields(m, tables), tables) == MergedFields(m, tables)
  {
    var r := MergedFields(m, tables);
    forall k | k in TableKeys(tables)
      ensures FillClosed(r[k], SubsOf(tables, k)) == r[k]
    {
      MergedTableIsFixed(m, tables, k);
    }
    assert MergedFields(r, tables) == r;
  }

  lemma MergedTableIsFixed(m: map<string, Json>, tables: seq<(string, Table)>, k: string)
    requires k in TableKeys(tables)
    ensures var r := MergedFields(m, tables); FillClosed(r[k], SubsOf(tables, k)) == r[k]
  {
    var r := MergedFields(m, tables);
    if r[k].JObj? {
      assert KeysOf(SubsOf(tables, k)) <= r[k].fields.Keys;
      assert FillClosed(r[k], SubsOf(tables, k)).fields == r[k].fields;
    }
  }

  /** Completing an already completed configuration changes nothing. */
  lemma MergeIdempotent(config: Json)
    requires MergeTables(config, DefaultTables).Some?
    ensures MergeTables(MergeTables(config, DefaultTables).value, DefaultTables)
            == MergeTables(config, DefaultTables)
  {
    assert DistinctKeys(DefaultTables);
    MergeKeepsAndFills(config);
    var m := config.fields;
    MergeTablesClosed(m, DefaultTables);
    var r := MergedFields(m, DefaultTables);
    MergedIsMergeable(m, DefaultTables);
    MergedIsFixed(m, DefaultTables);
    MergeTablesClosed(r, DefaultTables);
  }

  /** With no configuration of its own, a file holding an empty object
      completes to exactly the built-in defaults. */
  lemma EmptyObjectGivesDefaults()
    ensures MergeTables(JObj(map[]), DefaultTables) == Some(DefaultConfig())
  {
    assert DistinctKeys(DefaultTables);
    MergeIntoEmpty(DefaultTables);
  }

  /** Merging into an empty object adds every table whole. */
  lemma MergeIntoEmpty(tables: seq<(string, Table)>)
    requires DistinctKeys(tables)
    ensures MergeTables(JObj(map[]), tables) == Some(JObj(WholeTables(tables)))
  {
    MergeTablesClosed(map[], tables);
    assert TopMergeable(map[], tables);
    var merged := MergedFields(map[], tables);
    var whole := WholeTables(tables);
    assert merged.Keys == whole.Keys;
    forall k | k in merged ensures merged[k] == whole[k] {
    }
    assert merged == whole;
  }

  // ---------------------------------------------------------------------
  // The loader

  /** What reading `config.json` gave: no file, a file that did not parse,
      or a parsed value. */
  datatype ConfigFile = Missing | Unparsable | Parsed(value: Json)

  /** The merge loop of `load_config`, updating the configuration in place;
      None where the program raises. */
  method MergeDefaults(config: Json) returns (r: Option<Json>)
    ensures r == MergeTables(config, DefaultTables)
  {
    var cfg := config;
    var i := 0;
    while i < |DefaultTables|
      invariant i <= |DefaultTables|
      invariant MergeTables(cfg, DefaultTables[i..]) == MergeTables(config, DefaultTables)
    {
      assert DefaultTables[i..][1..] == DefaultTables[i + 1..];
      var key := DefaultTables[i].0;
      var subs := DefaultTables[i].1;
      var present := Member(key, cfg);
      if present.None? || !cfg.JObj? {
        return None;
      }
      if !present.value {
        cfg := JObj(cfg.fields[key := JObj(TableJson(subs))]);
      } else {
        var filled := FillSub(cfg.fields[key], subs);
        if filled.None? {
          return None;
        }
        cfg := JObj(cfg.fields[key := filled.value]);
      }
      i := i + 1;
    }
    return Some(cfg);
  }

  /** The sub-key loop for one table present in the file. */
  method FillSub(value: Json, subs: Table) returns (r: Option<Json>)
    ensures r == FillTable(value, subs)
  {
    var v := value;
    var j := 0;
    while j < |subs|
      invariant j <= |subs|
      invariant FillTable(v, subs[j..]) == FillTable(value, subs)
    {
      assert subs[j..][1..] == subs[j + 1..];
      var present := Member(subs[j].0, v);
      if present.None? {
        return None;
      }
      if !present.value {
        if !v.JObj? {
          return None;
        }
        v := JObj(v.fields[subs[j].0 := subs[j].1]);
      }
      j := j + 1;
    }
    return Some(v);
  }

  /** `load_config`: the defaults when there is no file, when it does not
      parse, or when the merge raises; otherwise the completed file. */
  method LoadConfig(file: ConfigFile) returns (config: Json)
    ensures file.Missing? || file.Unparsable? ==> config == DefaultConfig()
    ensures file.Parsed? ==>
      config == match MergeTables(file.value, DefaultTables)
                case Some(r) => r
                case None => DefaultConfig()
  {
    if !file.Parsed? {
      return DefaultConfig();
    }
    var merged := MergeDefaults(file.value);
    if merged.None? {
      return DefaultConfig();
    }
    return merged.value;
  }
}
