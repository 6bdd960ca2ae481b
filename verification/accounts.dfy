/**
 * Accounts: `UserAccount.save` (clothes/models.py:65-74) and the part of
 * `UserAccountManager.create_user` (models.py:11-22) that decides what is
 * stored.
 */
module Accounts {
  import opened Shop
  import Carts

  /**
   * `UserAccount.save`: `is_staff` is recomputed from the role, the row is
   * written, and a user who is not staff gets a cart if they have none.
   */
  function SavedUser(db: Db, uid: UserId, a: Account): Db {
    var saved := a.(isStaff := a.role == AdminRole);
    var db' := db.(users := db.users[uid := saved]);
    if saved.isStaff then db' else db'.(carts := Carts.GetOrCreateCart(db.carts, uid))
  }

  /**
   * `create_user` for the new account id `uid`: an empty email is refused;
   * otherwise `is_staff` is first set to "role is not 'user'" and then the
   * row is saved.
   */
  function CreateUser(db: Db, uid: UserId, username: string, email: string, role: string): Step<UserId>
    requires uid !in db.users
  {
    if email == "" then Step(db, Err(EmptyEmail))
    else Step(SavedUser(db, uid, Account(username, email, role, role != UserRole)), Ok(uid))
  }

  /**
   * After `UserAccount.save` the account is staff exactly when its role is
   * 'admin', whatever `is_staff` held before; a user who is not staff has a
   * cart (the one they had, or a new empty one), and no other row changes.
   * Saving the saved row again changes nothing.
   */
  lemma SavedUserRules(db: Db, uid: UserId, a: Account)
    ensures var db' := SavedUser(db, uid, a);
            && uid in db'.users
            && db'.users[uid] == a.(isStaff := a.role == AdminRole)
            && (db'.users[uid].isStaff <==> a.role == AdminRole)
            && (forall u :: u in db.users && u != uid ==> u in db'.users && db'.users[u] == db.users[u])
            && (!db'.users[uid].isStaff ==> uid in db'.carts)
            && (uid in db.carts ==> db'.carts == db.carts)
            && (uid !in db.carts && !db'.users[uid].isStaff ==> db'.carts == db.carts[uid := NewCart()])
            && (db'.users[uid].isStaff ==> db'.carts == db.carts)
            && db'.catalog == db.catalog && db'.orders == db.orders && db'.payments == db.payments
            && SavedUser(db', uid, db'.users[uid]) == db'
  {
  }

  /**
   * `create_user` succeeds exactly when the email is not empty. The stored
   * account is staff exactly when the role is 'admin' (the save overrides the
   * manager's "not 'user'" for any other role), and a new account that is not
   * staff starts with an empty cart.
   */
  lemma CreateUserOutcome(db: Db, uid: UserId, username: string, email: string, role: string)
    requires uid !in db.users
    ensures var s := CreateUser(db, uid, username, email, role);
            && (s.result.Ok? <==> email != "")
            && (s.result.Err? ==> s.db == db && s.result.error == EmptyEmail)
            && (s.result.Ok? ==>
                  && s.result.value == uid
                  && s.db.users == db.users[uid := Account(username, email, role, role == AdminRole)]
                  && (role != AdminRole && uid !in db.carts ==> s.db.carts == db.carts[uid := NewCart()])
                  && (role == AdminRole ==> s.db.carts == db.carts))
  {
  }

  /** Saving an account keeps the store consistent. */
  lemma SavedUserConsistent(db: Db, uid: UserId, a: Account)
    requires Consistent(db)
    ensures Consistent(SavedUser(db, uid, a))
  {
    if a.role != AdminRole && uid !in db.carts {
      Carts.ReplaceCartConsistent(db.(users := db.users[uid := a.(isStaff := false)]), uid, NewCart());
    }
  }
}
