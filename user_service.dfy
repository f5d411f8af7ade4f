/**
 * `UserService`: registering a Telegram user. Registering an id that is
 * already known returns the existing user and writes nothing; otherwise a new
 * user is saved under the next identity value.
 */
module UserServices {
  import opened Wrappers
  import opened Errors
  import opened Journal
  import opened Persistence
  import D = Domain

  /** The user `CreateUserAsync` returns: the stored one, or the one it saves. */
  function RegisteredUser(db: Db, telegramId: int): D.TelegramUser {
    if telegramId in db.users then db.users[telegramId] else D.TelegramUser(db.lastUserId + 1, telegramId)
  }

  /** The tables after `CreateUserAsync`. */
  function RegisteredDb(db: Db, telegramId: int): Db {
    if telegramId in db.users then db
    else db.(users := db.users[telegramId := RegisteredUser(db, telegramId)], lastUserId := db.lastUserId + 1)
  }

  /**
   * Registering keeps the tables consistent, leaves the user known under its
   * Telegram id with a positive id, changes no other user nor any other table,
   * and registering again returns the same user and changes nothing.
   */
  lemma Registered(db: Db, telegramId: int)
    requires Consistent(db)
    ensures var after := RegisteredDb(db, telegramId);
      var user := RegisteredUser(db, telegramId);
      && Consistent(after)
      && telegramId in after.users && after.users[telegramId] == user
      && user.telegramId == telegramId && user.id > 0
      && (forall t :: t != telegramId ==> (t in after.users <==> t in db.users))
      && (forall t :: t != telegramId && t in db.users ==> after.users[t] == db.users[t])
      && after.operations == db.operations && after.instances == db.instances && after.reminders == db.reminders
      && RegisteredUser(after, telegramId) == user
      && RegisteredDb(after, telegramId) == after
  {
  }

  /** A new user's id is greater than every id given before, so ids never repeat. */
  lemma RegisteredIdIsNew(db: Db, telegramId: int)
    requires Consistent(db) && telegramId !in db.users
    ensures forall t :: t in db.users ==> db.users[t].id < RegisteredUser(db, telegramId).id
  {
  }

  class UserService {
    const store: Store

    constructor (store: Store)
      ensures this.store == store
    {
      this.store := store;
    }

    /** `CreateUserAsync`: never fails; inserts only when the Telegram id is unknown. */
    method CreateUserAsync(dto: D.CreateUserDto) returns (res: Result<D.TelegramUser, Error>)
      requires Consistent(store.db)
      modifies store, store.log
      ensures res == Ok(RegisteredUser(old(store.db), dto.telegramId))
      ensures store.db == RegisteredDb(old(store.db), dto.telegramId)
      ensures store.log.events
           == old(store.log.events) + if old(store.UserExists(dto.telegramId)) then [] else [Inserted(Users)]
      ensures Consistent(store.db)
    {
      var found := store.FindUser(dto.telegramId);
      if found.Some? {
        return Ok(found.value);
      }
      var user := store.InsertUser(dto.telegramId);
      res := Ok(user);
    }
  }
}
