/** Key prefixes and expiry times the services read from `RedisConstants` (TTLs in minutes). */
module RedisConstants {
  const CACHE_NULL_TTL: int := 2
  const CACHE_SHOP_TTL: int := 30
  const CACHE_SHOP_KEY: string := "cache:shop:"
  const LOCK_SHOP_KEY: string := "lock:shop:"
  const CACHE_SHOP_TYPE_KEY: string := "cache:shopType"
  const LOGIN_CODE_KEY: string := "login:code:"
  const LOGIN_CODE_TTL: int := 2
  const USER_SIGN_KEY: string := "sign:"
  const BLOG_LIKED_KEY: string := "blog:liked:"
  const FEED_KEY: string := "feed:"

  /** `TimeUnit.MINUTES.toSeconds`. */
  function Minutes(m: int): int
  {
    m * 60
  }
}
