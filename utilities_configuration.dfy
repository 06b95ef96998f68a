/** config/UtilitiesConfiguration.java: CONFIG_SERVER rows loaded into the
    refreshable holder, and the beans derived from it. */
module UtilitiesConfiguration {
  import opened JavaLang
  import ConfigMapper

  /** One CONFIG_SERVER row (model/ConfigServer.java); the id is not read. */
  datatype ConfigServer = ConfigServer(properties: Option<string>, value: Option<string>)

  /** dto/ConfigMapData.java: a wrapped raw configuration value. */
  datatype ConfigMapData = ConfigMapData(value: Option<string>)

  /** The keys of ConfigServerMap (constant/ConfigServerMap.java is not part of
      this model; the keys are taken to be the constants' own names). */
  const EmailHostKey: string := "EMAIL_HOST"
  const EmailPortKey: string := "EMAIL_PORT"
  const EmailDelayKey: string := "EMAIL_DELAY"

  /** `ConfigServerHolder`: the current configuration map. A HashMap admits a
      null key, so keys are nullable. */
  class ConfigServerHolder {
    var configs: map<Option<string>, Option<string>>

    constructor ()
      ensures configs == map[]
    {
      configs := map[];
    }

    /** `setConfigs`: the map is replaced, not merged. */
    method SetConfigs(newConfigs: map<Option<string>, Option<string>>)
      modifies this
      ensures configs == newConfigs
    {
      configs := newConfigs;
    }

    /** `getConfigs().get(key)`: null for a missing key. */
    function Get(key: string): Option<string>
      reads this
    {
      if Some(key) in configs then configs[Some(key)] else None
    }
  }

  /** The map loadConfig builds: one `put(properties, value)` per row, in order. */
  function RowsToMap(rows: seq<ConfigServer>): map<Option<string>, Option<string>> {
    if rows == [] then map[]
    else
      var last := rows[|rows| - 1];
      RowsToMap(rows[..|rows| - 1])[last.properties := last.value]
  }

  /** `loadConfig()` over the rows `findAll()` returned. */
  method LoadConfig(holder: ConfigServerHolder, rows: seq<ConfigServer>)
    modifies holder
    ensures holder.configs == RowsToMap(rows)
  {
    var hashMap: map<Option<string>, Option<string>> := map[];
    for i := 0 to |rows|
      invariant hashMap == RowsToMap(rows[..i])
    {
      assert rows[..i + 1][..i] == rows[..i];
      hashMap := hashMap[rows[i].properties := rows[i].value];
    }
    assert rows[..|rows|] == rows;
    holder.SetConfigs(hashMap);
  }

  /** The loaded map has one key per distinct `properties`, and each key holds
      the value of the last row that carries it. */
  lemma {:induction false} RowsToMapLastWins(rows: seq<ConfigServer>)
    ensures var m := RowsToMap(rows);
      && (forall k :: k in m <==> exists i | 0 <= i < |rows| :: rows[i].properties == k)
      && (forall i | 0 <= i < |rows| && (forall j | i < j < |rows| :: rows[j].properties != rows[i].properties) ::
            m[rows[i].properties] == rows[i].value)
  {
    if rows != [] {
      var init := rows[..|rows| - 1];
      RowsToMapLastWins(init);
      forall k ensures k in RowsToMap(rows) <==> exists i | 0 <= i < |rows| :: rows[i].properties == k {
        if exists i | 0 <= i < |init| :: init[i].properties == k {
          var i :| 0 <= i < |init| && init[i].properties == k;
          assert rows[i] == init[i];
        }
        if k != rows[|rows| - 1].properties && exists i | 0 <= i < |rows| :: rows[i].properties == k {
          var i :| 0 <= i < |rows| && rows[i].properties == k;
          assert init[i] == rows[i];
        }
      }
      forall i | 0 <= i < |rows| && (forall j | i < j < |rows| :: rows[j].properties != rows[i].properties)
        ensures RowsToMap(rows)[rows[i].properties] == rows[i].value
      {
        if i < |rows| - 1 {
          assert init[i] == rows[i];
          assert forall j | i < j < |init| :: init[j] == rows[j];
        }
      }
    }
  }

  /** `emailHost()`: the holder's current EMAIL_HOST value, null when the key
      is missing. */
  function EmailHost(holder: ConfigServerHolder): (r: ConfigMapData)
    reads holder
    ensures Some(EmailHostKey) !in holder.configs ==> r.value == None
    ensures Some(EmailHostKey) in holder.configs ==> r.value == holder.configs[Some(EmailHostKey)]
  {
    ConfigMapData(holder.Get(EmailHostKey))
  }

  /** `emailPort()`: the holder's current EMAIL_PORT value, null when the key
      is missing. */
  function EmailPort(holder: ConfigServerHolder): (r: ConfigMapData)
    reads holder
    ensures Some(EmailPortKey) !in holder.configs ==> r.value == None
    ensures Some(EmailPortKey) in holder.configs ==> r.value == holder.configs[Some(EmailPortKey)]
  {
    ConfigMapData(holder.Get(EmailPortKey))
  }

  /** Row `i` is the last row whose `properties` is `key`. */
  predicate LastRowWith(rows: seq<ConfigServer>, i: int, key: string) {
    && 0 <= i < |rows| && rows[i].properties == Some(key)
    && forall j | i < j < |rows| :: rows[j].properties != Some(key)
  }

  /** No row has `key` as its `properties`. */
  predicate NoRowWith(rows: seq<ConfigServer>, key: string) {
    forall i | 0 <= i < |rows| :: rows[i].properties != Some(key)
  }

  /** After a load, looking a key up gives the value of the last row carrying
      it, and null when no row carries it. */
  lemma LastRowValue(holder: ConfigServerHolder, rows: seq<ConfigServer>, key: string)
    requires holder.configs == RowsToMap(rows)
    ensures NoRowWith(rows, key) ==> holder.Get(key) == None
    ensures forall i | LastRowWith(rows, i, key) :: holder.Get(key) == rows[i].value
  {
    RowsToMapLastWins(rows);
  }

  /** The host and port beans of a holder that loadConfig filled from `rows`
      wrap the value of the last row carrying their key, or null when no row
      carries it. */
  lemma LoadedBeanValue(holder: ConfigServerHolder, rows: seq<ConfigServer>)
    requires holder.configs == RowsToMap(rows)
    ensures NoRowWith(rows, EmailHostKey) ==> EmailHost(holder).value == None
    ensures forall i | LastRowWith(rows, i, EmailHostKey) :: EmailHost(holder).value == rows[i].value
    ensures NoRowWith(rows, EmailPortKey) ==> EmailPort(holder).value == None
    ensures forall i | LastRowWith(rows, i, EmailPortKey) :: EmailPort(holder).value == rows[i].value
  {
    LastRowValue(holder, rows, EmailHostKey);
    LastRowValue(holder, rows, EmailPortKey);
  }

  /** The delay map emailDelayMap returns for a configuration. */
  function DelayMap(configs: map<Option<string>, Option<string>>): map<string, Option<string>> {
    var emailDelay := if Some(EmailDelayKey) in configs then configs[Some(EmailDelayKey)] else None;
    if NullOrEmpty(emailDelay) then map[] else ConfigMapper.ConfigMap(emailDelay)
  }

  /** `emailDelayMap()`. */
  method EmailDelayMap(holder: ConfigServerHolder) returns (emailDelayMap: map<string, Option<string>>)
    ensures emailDelayMap == DelayMap(holder.configs)
    ensures NullOrEmpty(holder.Get(EmailDelayKey)) ==> emailDelayMap == map[]
    ensures !NullOrEmpty(holder.Get(EmailDelayKey)) ==>
              emailDelayMap == ConfigMapper.ConfigMap(holder.Get(EmailDelayKey))
  {
    var emailDelay := holder.Get(EmailDelayKey);
    emailDelayMap := map[];
    if !NullOrEmpty(emailDelay) {
      emailDelayMap := ConfigMapper.ConfigServerMapValueReader(emailDelay);
    }
  }

  /** Every name in the delay map is free of braces, quotes and separators,
      whatever the configuration holds. */
  lemma DelayMapClean(configs: map<Option<string>, Option<string>>)
    ensures ConfigMapper.MapAvoids(DelayMap(configs), ConfigMapper.NameFree, ConfigMapper.ValueFree)
  {
    var emailDelay := if Some(EmailDelayKey) in configs then configs[Some(EmailDelayKey)] else None;
    if !NullOrEmpty(emailDelay) {
      ConfigMapper.ConfigMapClean(emailDelay);
    }
  }
}
