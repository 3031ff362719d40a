/**
 * The field-name bindings the engine reads from its settings: which field
 * joins a client record to its server copy, which fields carry the client's
 * sync flags, and which optional fields hold the sort position and the audit
 * stamps. The pull and push addresses belong to the transport and are not
 * part of this model.
 */
module Config {
  import opened Records

  datatype Settings = Settings(
    uniqueKey: string,
    primaryKey: string,
    isNewKey: string,
    deletedKey: string,
    updatedKey: string,
    sortingKey: Option<string>,
    createdAtKey: Option<string>,
    updatedAtKey: Option<string>,
    deletedAtKey: Option<string>)

  /**
   * The bindings used when nothing is configured: no sort field and no
   * audit stamps, so deletion is physical; the roles get distinct names.
   */
  function Defaults(): (cfg: Settings)
    ensures WellFormed(cfg) && cfg.sortingKey.None? && cfg.deletedAtKey.None?
    ensures cfg.uniqueKey != cfg.primaryKey
  {
    Settings("unique", "id", "is_new", "deleted", "updated", None, None, None, None)
  }

  /** The fields the attribute differ never compares or copies. */
  predicate IsSkipped(cfg: Settings, k: string) {
    k == cfg.primaryKey || k == cfg.uniqueKey || k == cfg.isNewKey
    || k == cfg.updatedKey || k == cfg.deletedKey
  }

  /** `k` is the configured optional field `key`. */
  predicate Names(key: Option<string>, k: string) {
    key.Some? && key.value == k
  }

  /**
   * A field written by the engine itself: the sort position or an audit stamp.
   */
  predicate IsManaged(cfg: Settings, k: string) {
    Names(cfg.sortingKey, k) || Names(cfg.createdAtKey, k)
    || Names(cfg.updatedAtKey, k) || Names(cfg.deletedAtKey, k)
  }

  /** The optional field `key`, when configured, is not one the differ skips. */
  predicate Unskipped(cfg: Settings, key: Option<string>) {
    key.None? || !IsSkipped(cfg, key.value)
  }

  /**
   * Distinct roles get distinct field names: the unique key and the three
   * flags are four different fields, and none of the optional fields reuses
   * one of them or another optional field.
   */
  predicate WellFormed(cfg: Settings) {
    && cfg.uniqueKey != cfg.isNewKey && cfg.uniqueKey != cfg.updatedKey
    && cfg.uniqueKey != cfg.deletedKey && cfg.isNewKey != cfg.updatedKey
    && cfg.isNewKey != cfg.deletedKey && cfg.updatedKey != cfg.deletedKey
    && Unskipped(cfg, cfg.sortingKey) && Unskipped(cfg, cfg.createdAtKey)
    && Unskipped(cfg, cfg.updatedAtKey) && Unskipped(cfg, cfg.deletedAtKey)
    && (cfg.sortingKey.Some? ==>
          !Names(cfg.createdAtKey, cfg.sortingKey.value)
          && !Names(cfg.updatedAtKey, cfg.sortingKey.value)
          && !Names(cfg.deletedAtKey, cfg.sortingKey.value))
    && (cfg.deletedAtKey.Some? ==>
          !Names(cfg.createdAtKey, cfg.deletedAtKey.value)
          && !Names(cfg.updatedAtKey, cfg.deletedAtKey.value))
    && (cfg.createdAtKey.Some? ==> !Names(cfg.updatedAtKey, cfg.createdAtKey.value))
  }

  /**
   * `s_data.get(deleted_at_key) is None`: the server record has not been
   * soft-deleted. Without a soft-delete field every record is live.
   */
  predicate IsLive(cfg: Settings, s: Record) {
    cfg.deletedAtKey.None?
    || Get(s, cfg.deletedAtKey.value).None?
    || Get(s, cfg.deletedAtKey.value) == Some(Null)
  }
}
