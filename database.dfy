/** The relational tables the services touch, as fields of one object, with the MyBatis calls
    they issue as methods; and Redisson's lock as the set of lock names currently held. */
module Database {
  import opened RedisStore

  /** A row of `tb_voucher_order`. */
  datatype VoucherOrder = VoucherOrder(id: int, userId: int, voucherId: int)

  /** The columns of `tb_blog` the blog service reads or writes. */
  datatype Blog = Blog(id: int, userId: int, liked: int, isLike: bool)

  /** A row of `tb_follow`: `userId` follows `followUserId`. */
  datatype Follow = Follow(userId: int, followUserId: int)

  /** `count()` of the orders of one user for one voucher. */
  function OrderCount(orders: seq<VoucherOrder>, userId: int, voucherId: int): (n: nat)
    ensures n <= |orders|
  {
    if orders == [] then 0
    else (if orders[0].userId == userId && orders[0].voucherId == voucherId then 1 else 0)
         + OrderCount(orders[1..], userId, voucherId)
  }

  /** `update ... set stock = stock - 1 where voucher_id = ? and stock > 0`: the new stock column
      and whether a row was updated. */
  function DecrementStock(stock: map<int, int>, voucherId: int): (r: (bool, map<int, int>))
  {
    if voucherId in stock && stock[voucherId] > 0 then (true, stock[voucherId := stock[voucherId] - 1])
    else (false, stock)
  }

  /** The rows of `tb_follow` matching a `(user_id, follow_user_id)` pair. */
  function Matching(follows: seq<Follow>, userId: int, followUserId: int): (r: seq<Follow>)
    ensures |r| <= |follows|
  {
    if follows == [] then []
    else (if follows[0] == Follow(userId, followUserId) then [follows[0]] else [])
         + Matching(follows[1..], userId, followUserId)
  }

  /** `remove(wrapper)`: the table without the rows matching the pair. */
  function Without(follows: seq<Follow>, userId: int, followUserId: int): seq<Follow>
  {
    if follows == [] then []
    else (if follows[0] == Follow(userId, followUserId) then [] else [follows[0]])
         + Without(follows[1..], userId, followUserId)
  }

  /** The user ids following `authorId`, in table order (`eq("follow_user_id", authorId).list()`). */
  function Followers(follows: seq<Follow>, authorId: int): seq<int>
  {
    if follows == [] then []
    else (if follows[0].followUserId == authorId then [follows[0].userId] else [])
         + Followers(follows[1..], authorId)
  }

  class Db {
    var shops: map<int, Record>
    var shopTypes: seq<Record>
    /** `tb_seckill_voucher.stock`, by voucher id. */
    var stock: map<int, int>
    var orders: seq<VoucherOrder>
    var blogs: map<int, Blog>
    var follows: seq<Follow>

    constructor ()
      ensures shops == map[] && shopTypes == [] && stock == map[] && orders == [] && blogs == map[] && follows == []
    {
      shops, shopTypes, stock, orders, blogs, follows := map[], [], map[], [], map[], [];
    }

    method UpdateStock(voucherId: int) returns (success: bool)
      modifies this`stock
      ensures (success, stock) == DecrementStock(old(stock), voucherId)
    {
      success := voucherId in stock && stock[voucherId] > 0;
      if success {
        stock := stock[voucherId := stock[voucherId] - 1];
      }
    }

    method SaveOrder(order: VoucherOrder)
      modifies this`orders
      ensures orders == old(orders) + [order]
    {
      orders := orders + [order];
    }

    /** `updateById(shop)`: replaces the row with the shop's id; no row, no change. */
    method UpdateShop(shop: Record)
      modifies this`shops
      ensures shops == if shop.id in old(shops) then old(shops)[shop.id := shop] else old(shops)
    {
      if shop.id in shops {
        shops := shops[shop.id := shop];
      }
    }

    /** `update().setSql("liked=liked+delta").eq("id", id).update()`: true when a row was updated. */
    method UpdateLiked(id: int, delta: int) returns (success: bool)
      modifies this`blogs
      ensures success <==> id in old(blogs)
      ensures blogs == if success then old(blogs)[id := old(blogs)[id].(liked := old(blogs)[id].liked + delta)] else old(blogs)
    {
      success := id in blogs;
      if success {
        blogs := blogs[id := blogs[id].(liked := blogs[id].liked + delta)];
      }
    }

    /** `save(blog)` with the generated key `id`; `saved` is what the insert reported. */
    method SaveBlog(blog: Blog, saved: bool)
      modifies this`blogs
      ensures blogs == if saved then old(blogs)[blog.id := blog] else old(blogs)
    {
      if saved {
        blogs := blogs[blog.id := blog];
      }
    }

    /** `save(follow)`; `saved` is what the insert reported. */
    method SaveFollow(follow: Follow, saved: bool)
      modifies this`follows
      ensures follows == if saved then old(follows) + [follow] else old(follows)
    {
      if saved {
        follows := follows + [follow];
      }
    }

    /** `remove(wrapper)`: true when at least one row was deleted. */
    method RemoveFollow(userId: int, followUserId: int) returns (success: bool)
      modifies this`follows
      ensures success <==> |Matching(old(follows), userId, followUserId)| > 0
      ensures follows == Without(old(follows), userId, followUserId)
    {
      success := |Matching(follows, userId, followUserId)| > 0;
      follows := Without(follows, userId, followUserId);
    }
  }

  /** Redisson's `RLock`s, as the set of lock names currently held. */
  class Redisson {
    var held: set<string>

    constructor ()
      ensures held == {}
    {
      held := {};
    }

    /** `getLock(name).tryLock()`: takes the lock when nobody holds it, without waiting. */
    method TryLock(name: string) returns (locked: bool)
      modifies this
      ensures locked <==> name !in old(held)
      ensures held == old(held) + {name}
    {
      locked := name !in held;
      held := held + {name};
    }

    method Unlock(name: string)
      modifies this
      ensures held == old(held) - {name}
    {
      held := held - {name};
    }
  }
}
