/** What the caches are generic in: any key type and any value type. */
module CacheTypes {
  type Key(==, !new, 0)
  type Value(!new, 0)
}
