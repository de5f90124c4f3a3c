/** Persisting seckill voucher orders: the `stock > 0` conditional decrement, the order insert,
    the per-user Redisson lock around them, and the order-id reply of `seckillVoucher`. */
module VoucherOrderService {
  import opened Wrappers
  import opened Text
  import opened Clock
  import opened RedisStore
  import opened RedisClient
  import opened Database
  import RedisIdWorker

  /** The two tables an order touches. */
  datatype Tables = Tables(stock: map<int, int>, orders: seq<VoucherOrder>)

  /** Why `handleVoucherOrder` ended with an exception. */
  datatype Error = NullProxy | InsertFailed

  datatype Handled = Busy | Created | Threw(error: Error)

  const LOCK_PREFIX := "lock:voucherOrder:"

  function LockName(userId: int): string
  {
    LOCK_PREFIX + IntToString(userId)
  }

  /** `createVoucherOrder` inside its transaction: the duplicate count and a failed decrement are
      only logged, the order is then inserted; an insert that throws rolls the decrement back. */
  function CreateOrder(t: Tables, order: VoucherOrder, insertFails: bool): Tables
  {
    var (_, stock) := DecrementStock(t.stock, order.voucherId);
    if insertFails then t else Tables(stock, t.orders + [order])
  }

  /** `handleVoucherOrder` once `proxy` refers to the transactional service: the outcome and the tables. */
  function Handle(held: set<string>, t: Tables, order: VoucherOrder, insertFails: bool): (Handled, Tables)
  {
    if LockName(order.userId) in held then (Busy, t)
    else (if insertFails then Threw(InsertFailed) else Created, CreateOrder(t, order, insertFails))
  }

  /** `handleVoucherOrder` as written: `proxy` is never assigned, so the call under the lock throws. */
  function HandleAsWritten(held: set<string>, t: Tables, order: VoucherOrder): (Handled, Tables)
  {
    if LockName(order.userId) in held then (Busy, t) else (Threw(NullProxy), t)
  }

  method CreateVoucherOrder(db: Db, order: VoucherOrder, insertFails: bool) returns (saved: bool)
    modifies db`stock, db`orders
    ensures saved == !insertFails
    ensures Tables(db.stock, db.orders) == CreateOrder(Tables(old(db.stock), old(db.orders)), order, insertFails)
  {
    var count := OrderCount(db.orders, order.userId, order.voucherId);
    // count > 0 is only logged
    var stockBefore, ordersBefore := db.stock, db.orders;
    var success := db.UpdateStock(order.voucherId);
    // !success is only logged
    if insertFails {
      // @Transactional rolls the whole method back
      db.stock, db.orders := stockBefore, ordersBefore;
      saved := false;
    } else {
      db.SaveOrder(order);
      saved := true;
    }
  }

  /** The lock is released on every exit once it was taken, so the held set ends as it began. */
  method HandleVoucherOrder(redisson: Redisson, db: Db, order: VoucherOrder, insertFails: bool) returns (outcome: Handled)
    modifies redisson, db`stock, db`orders
    ensures redisson.held == old(redisson.held)
    ensures (outcome, Tables(db.stock, db.orders))
         == Handle(old(redisson.held), Tables(old(db.stock), old(db.orders)), order, insertFails)
  {
    var name := LockName(order.userId);
    var isLock := redisson.TryLock(name);
    if !isLock {
      return Busy;
    }
    var saved := CreateVoucherOrder(db, order, insertFails);
    redisson.Unlock(name);
    outcome := if saved then Created else Threw(InsertFailed);
  }

  method HandleVoucherOrderAsWritten(redisson: Redisson, db: Db, order: VoucherOrder) returns (outcome: Handled)
    modifies redisson
    ensures redisson.held == old(redisson.held)
    ensures (outcome, Tables(db.stock, db.orders))
         == HandleAsWritten(old(redisson.held), Tables(db.stock, db.orders), order)
  {
    var name := LockName(order.userId);
    var isLock := redisson.TryLock(name);
    if !isLock {
      return Busy;
    }
    // proxy.createVoucherOrder(...) dereferences null; finally releases the lock
    redisson.Unlock(name);
    outcome := Threw(NullProxy);
  }

  /** `seckillVoucher`: the user and voucher only fed the admission script, which is not called;
      the reply is a fresh order id, and no table is touched (`db` is not even reachable). */
  method SeckillVoucher(redis: Redis, voucherId: int, userId: int, now: DateTime) returns (r: Result<int>)
    requires Valid(now)
    modifies redis
    ensures r == Ok(RedisIdWorker.NextId(old(redis.State()), "order", now).0)
    ensures redis.State() == RedisIdWorker.NextId(old(redis.State()), "order", now).1
  {
    var orderId := RedisIdWorker.NextIdAt(redis, "order", now);
    r := Ok(orderId);
  }

  // ---------------------------------------------------------------------------------------------
  // Properties

  /** The conditional update takes exactly one unit iff there is stock, and only from that voucher. */
  lemma DecrementStockExact(stock: map<int, int>, voucherId: int)
    ensures var (ok, after) := DecrementStock(stock, voucherId);
      && (ok <==> voucherId in stock && stock[voucherId] > 0)
      && (ok ==> after == stock[voucherId := stock[voucherId] - 1])
      && (!ok ==> after == stock)
      && after.Keys == stock.Keys
      && (forall w :: w in stock && w != voucherId ==> after[w] == stock[w])
  {
  }

  /** Stock never goes negative. */
  lemma DecrementStockNonNegative(stock: map<int, int>, voucherId: int)
    requires forall w :: w in stock ==> stock[w] >= 0
    ensures var after := DecrementStock(stock, voucherId).1;
      forall w :: w in after ==> after[w] >= 0
  {
  }

  /** Unless the insert throws, the order is saved whatever the duplicate and stock checks found. */
  lemma CreateSavesOnEveryPath(t: Tables, order: VoucherOrder)
    ensures CreateOrder(t, order, false).orders == t.orders + [order]
    ensures CreateOrder(t, order, false).stock == DecrementStock(t.stock, order.voucherId).1
    ensures CreateOrder(t, order, true) == t
  {
  }

  lemma {:induction false} OrderCountAppend(orders: seq<VoucherOrder>, order: VoucherOrder)
    ensures OrderCount(orders + [order], order.userId, order.voucherId)
         == OrderCount(orders, order.userId, order.voucherId) + 1
  {
    if orders == [] {
      assert orders + [order] == [order];
    } else {
      assert (orders + [order])[1..] == orders[1..] + [order];
      OrderCountAppend(orders[1..], order);
    }
  }

  /** One-order-per-user is not enforced: the same user's second order for a voucher is stored too. */
  lemma SecondOrderOfUserStored(t: Tables, o1: VoucherOrder, o2: VoucherOrder)
    requires o1.userId == o2.userId && o1.voucherId == o2.voucherId
    ensures var t2 := CreateOrder(CreateOrder(t, o1, false), o2, false);
      OrderCount(t2.orders, o1.userId, o1.voucherId) == OrderCount(t.orders, o1.userId, o1.voucherId) + 2
  {
    OrderCountAppend(t.orders, o1);
    OrderCountAppend(t.orders + [o1], o2);
  }

  /** A held per-user lock means no order and no stock change. */
  lemma HandleWhenBusy(held: set<string>, t: Tables, order: VoucherOrder, insertFails: bool)
    requires LockName(order.userId) in held
    ensures Handle(held, t, order, insertFails) == (Busy, t)
  {
  }

  /** With the lock free, the order is created, or the transaction rolled back when the insert throws. */
  lemma HandleWhenFree(held: set<string>, t: Tables, order: VoucherOrder, insertFails: bool)
    requires LockName(order.userId) !in held
    ensures var (outcome, after) := Handle(held, t, order, insertFails);
      && (outcome == Created <==> !insertFails)
      && (!insertFails ==> after.orders == t.orders + [order])
      && (insertFails ==> outcome == Threw(InsertFailed) && after == t)
  {
  }

  /** The lock is per user: a lock held for one user never blocks another user's order. */
  lemma DifferentUsersNeverContend(t: Tables, o1: VoucherOrder, o2: VoucherOrder, insertFails: bool)
    requires o1.userId != o2.userId
    ensures Handle({LockName(o1.userId)}, t, o2, insertFails) == Handle({}, t, o2, insertFails)
  {
    if LockName(o1.userId) == LockName(o2.userId) {
      NumberedKeyInjective(LOCK_PREFIX, o1.userId, o2.userId);
    }
  }

  /** As written, no order is ever persisted; the corrected wrapper saves it. */
  lemma NullProxyLosesOrder(held: set<string>, t: Tables, order: VoucherOrder)
    requires LockName(order.userId) !in held
    ensures HandleAsWritten(held, t, order) == (Threw(NullProxy), t)
    ensures Handle(held, t, order, false).1.orders == t.orders + [order]
  {
  }
}
