/** The data-access layer of database.py over an in-memory stand-in for its
    three MongoDB collections. Each collection is a map from a document's
    _id to the rest of the document; a create operation is given the fresh
    _id that insert_one would generate. */
module Database {
  import opened EmailFormat
  import opened Passwords
  import opened Records

  /** Some account document has this email (find_one({"email": email}) finds one). */
  predicate EmailTaken(accounts: map<ObjectId, Account>, email: string) {
    exists id :: id in accounts && accounts[id].email == email
  }

  /** No two account documents share an email. */
  ghost predicate UniqueEmails(accounts: map<ObjectId, Account>) {
    forall a, b :: a in accounts && b in accounts && accounts[a].email == accounts[b].email ==> a == b
  }

  /** Every stored email passed the format check. */
  ghost predicate WellFormedEmails(accounts: map<ObjectId, Account>) {
    forall id :: id in accounts ==> MatchesPattern(accounts[id].email)
  }

  /** Every stored habit type is "good" or "bad". */
  ghost predicate WellFormedHabitTypes(habits: map<ObjectId, Habit>) {
    forall id :: id in habits ==> habits[id].habitType == "good" || habits[id].habitType == "bad"
  }

  /** Every stored cost passed isinstance(cost, int), and bson could encode it. */
  ghost predicate IntegerCosts(wishlist: map<ObjectId, WishlistEntry>) {
    forall id :: id in wishlist ==> IsInstanceInt(wishlist[id].cost) && FitsBson(wishlist[id].cost)
  }

  /** Storing an account whose email no stored account has keeps emails unique. */
  lemma InsertKeepsEmailsUnique(accounts: map<ObjectId, Account>, id: ObjectId, account: Account)
    requires UniqueEmails(accounts)
    requires !EmailTaken(accounts, account.email)
    ensures UniqueEmails(accounts[id := account])
  {
    var after := accounts[id := account];
    forall a, b | a in after && b in after && after[a].email == after[b].email
      ensures a == b
    {
      if a != id && b != id {
        assert accounts[a].email == accounts[b].email;
      }
    }
  }

  /** The collections and the key derivation bcrypt uses. */
  class Store {
    const kdf: KeyDerivation
    var accounts: map<ObjectId, Account>
    var habits: map<ObjectId, Habit>
    var wishlist: map<ObjectId, WishlistEntry>
    /** Every ObjectId insert_one has generated so far, in any collection;
        bson never generates one twice, even after a delete. */
    ghost var issued: set<ObjectId>

    /** What the create operations keep true of the collections. */
    ghost predicate Valid()
      reads this
    {
      && UniqueEmails(accounts)
      && WellFormedEmails(accounts)
      && WellFormedHabitTypes(habits)
      && IntegerCosts(wishlist)
      && accounts.Keys <= issued && habits.Keys <= issued && wishlist.Keys <= issued
    }

    /** Empty collections. */
    constructor (kdf: KeyDerivation)
      ensures Valid()
      ensures this.kdf == kdf
      ensures accounts == map[] && habits == map[] && wishlist == map[] && issued == {}
    {
      this.kdf := kdf;
      accounts, habits, wishlist := map[], map[], map[];
      issued := {};
    }

    /** get_account_using_email: the account with that email, or None. */
    function GetAccountUsingEmail(email: string): (r: Option<(ObjectId, Account)>)
      reads this
      requires Valid()
      ensures r.Some? <==> EmailTaken(accounts, email)
      ensures r.Some? ==> r.value.0 in accounts && accounts[r.value.0] == r.value.1
      ensures r.Some? ==> r.value.1.email == email
    {
      if EmailTaken(accounts, email) then
        var id :| id in accounts && accounts[id].email == email;
        Some((id, accounts[id]))
      else
        None
    }

    /** get_habit: the habit document with that _id. */
    function GetHabit(habitId: ObjectId): (r: Result<(ObjectId, Habit)>)
      reads this
      ensures r.Success? <==> habitId in habits
      ensures r.Success? ==> r.value == (habitId, habits[habitId])
      ensures r.Failure? ==> r.error == HabitNotFound
    {
      if habitId in habits then Success((habitId, habits[habitId])) else Failure(HabitNotFound)
    }

    /** get_habits: the habit documents of the account with that email. */
    function GetHabits(email: string): (r: Result<map<ObjectId, Habit>>)
      reads this
      requires Valid()
      ensures r.Failure? <==> !EmailTaken(accounts, email)
      ensures r.Failure? ==> r.error == EmailNotLinked
      ensures r.Success? ==> forall id :: id in r.value ==> id in habits && r.value[id] == habits[id]
      ensures r.Success? ==> forall id :: id in habits ==>
                (id in r.value <==> habits[id].accountId in accounts && accounts[habits[id].accountId].email == email)
    {
      match GetAccountUsingEmail(email)
      case None => Failure(EmailNotLinked)
      case Some((accountId, _)) => Success(map id | id in habits && habits[id].accountId == accountId :: habits[id])
    }

    /** validate_user: the account, if the email is registered and the
        password checks against the stored hash. */
    function ValidateUser(email: string, password: string): (r: Result<(ObjectId, Account)>)
      reads this
      requires Valid()
      ensures r.Success? <==>
                exists id :: id in accounts && accounts[id].email == email && CheckPassword(kdf, password, accounts[id].password)
      ensures r.Success? ==> r.value.0 in accounts && accounts[r.value.0] == r.value.1 && r.value.1.email == email
      ensures !EmailTaken(accounts, email) ==> r == Failure(EmailNotRegistered)
      ensures EmailTaken(accounts, email) && r.Failure? ==> r.error == PasswordMismatch
    {
      match GetAccountUsingEmail(email)
      case None => Failure(EmailNotRegistered)
      case Some((id, account)) =>
        if CheckPassword(kdf, password, account.password) then Success((id, account))
        else Failure(PasswordMismatch)
    }

    /** create_account: check the format, then uniqueness, then insert the
        account with the hashed password. */
    method CreateAccount(email: string, password: string, displayName: string, salt: Bytes, newId: ObjectId)
      returns (r: Result<(ObjectId, Account)>)
      requires Valid()
      requires newId !in issued
      modifies this
      ensures Valid()
      ensures habits == old(habits) && wishlist == old(wishlist)
      ensures !IsValidEmail(email) ==>
                r == Failure(InvalidEmailFormat) && accounts == old(accounts) && issued == old(issued)
      ensures IsValidEmail(email) && old(EmailTaken(accounts, email)) ==>
                r == Failure(EmailAlreadyExists) && accounts == old(accounts) && issued == old(issued)
      ensures IsValidEmail(email) && !old(EmailTaken(accounts, email)) ==>
                var account := Account(email, HashPassword(kdf, password, salt), displayName);
                && r == Success((newId, account))
                && accounts == old(accounts)[newId := account]
                && issued == old(issued) + {newId}
    {
      if !IsValidEmail(email) {
        return Failure(InvalidEmailFormat);
      }
      if GetAccountUsingEmail(email).Some? {
        return Failure(EmailAlreadyExists);
      }
      var account := Account(email, HashPassword(kdf, password, salt), displayName);
      InsertKeepsEmailsUnique(accounts, newId, account);
      accounts := accounts[newId := account];
      issued := issued + {newId};
      r := Success((newId, account));
    }

    /** create_habit: resolve the email, then check the type, then insert a
        habit with the lower-cased type and no points. */
    method CreateHabit(habitName: string, habitType: string, email: string, newId: ObjectId)
      returns (r: Result<map<string, string>>)
      requires Valid()
      requires newId !in issued
      modifies this
      ensures Valid()
      ensures accounts == old(accounts) && wishlist == old(wishlist)
      ensures !old(EmailTaken(accounts, email)) ==>
                r == Failure(EmailNotLinked) && habits == old(habits) && issued == old(issued)
      ensures old(EmailTaken(accounts, email)) && NormalizeHabitType(habitType).None? ==>
                r == Failure(InvalidHabitType) && habits == old(habits) && issued == old(issued)
      ensures old(EmailTaken(accounts, email)) && NormalizeHabitType(habitType).Some? ==>
                var accountId := GetAccountUsingEmail(email).value.0;
                var habit := Habit(habitName, NormalizeHabitType(habitType).value, 0, accountId);
                && accounts[accountId].email == email
                && r == Success(HabitStrings(newId, habit))
                && habits == old(habits)[newId := habit]
                && issued == old(issued) + {newId}
    {
      var account := GetAccountUsingEmail(email);
      if account.None? {
        return Failure(EmailNotLinked);
      }
      var normalized := NormalizeHabitType(habitType);
      if normalized.None? {
        return Failure(InvalidHabitType);
      }
      var habit := Habit(habitName, normalized.value, 0, account.value.0);
      habits := habits[newId := habit];
      issued := issued + {newId};
      r := Success(HabitStrings(newId, habit));
    }

    /** create_wishlist_entry: resolve the email, then check that the cost
        is an int, then insert the entry. insert_one generates the _id and
        then encodes the document; an int that does not fit in 8 bytes makes
        the encoding raise OverflowError, and nothing is stored. */
    method CreateWishlistEntry(name: string, cost: PyValue, email: string, newId: ObjectId)
      returns (r: Result<map<string, string>>)
      requires Valid()
      requires newId !in issued
      modifies this
      ensures Valid()
      ensures accounts == old(accounts) && habits == old(habits)
      ensures !old(EmailTaken(accounts, email)) ==>
                r == Failure(EmailNotLinked) && wishlist == old(wishlist) && issued == old(issued)
      ensures old(EmailTaken(accounts, email)) && !IsInstanceInt(cost) ==>
                r == Failure(CostNotInteger) && wishlist == old(wishlist) && issued == old(issued)
      ensures old(EmailTaken(accounts, email)) && IsInstanceInt(cost) && !FitsBson(cost) ==>
                r == Failure(IntegerTooLarge) && wishlist == old(wishlist) && issued == old(issued) + {newId}
      ensures old(EmailTaken(accounts, email)) && IsInstanceInt(cost) && FitsBson(cost) ==>
                var accountId := GetAccountUsingEmail(email).value.0;
                var entry := WishlistEntry(name, cost, accountId);
                && accounts[accountId].email == email
                && r == Success(WishlistStrings(newId, entry))
                && wishlist == old(wishlist)[newId := entry]
                && issued == old(issued) + {newId}
    {
      var account := GetAccountUsingEmail(email);
      if account.None? {
        return Failure(EmailNotLinked);
      }
      if !IsInstanceInt(cost) {
        return Failure(CostNotInteger);
      }
      issued := issued + {newId};
      if !FitsBson(cost) {
        return Failure(IntegerTooLarge);
      }
      var entry := WishlistEntry(name, cost, account.value.0);
      wishlist := wishlist[newId := entry];
      r := Success(WishlistStrings(newId, entry));
    }

    /** delete_account: find_one_and_delete by _id. The account's habits and
        wishlist entries stay. */
    method DeleteAccount(accountId: ObjectId) returns (r: Result<(ObjectId, Account)>)
      requires Valid()
      modifies this
      ensures Valid()
      ensures habits == old(habits) && wishlist == old(wishlist) && issued == old(issued)
      ensures accountId in old(accounts) ==>
                r == Success((accountId, old(accounts)[accountId])) && accounts == old(accounts) - {accountId}
      ensures accountId !in old(accounts) ==> r == Failure(InvalidHabitId) && accounts == old(accounts)
    {
      if accountId !in accounts {
        return Failure(InvalidHabitId);
      }
      r := Success((accountId, accounts[accountId]));
      accounts := accounts - {accountId};
    }

    /** delete_habit: find_one_and_delete by _id. */
    method DeleteHabit(habitId: ObjectId) returns (r: Result<(ObjectId, Habit)>)
      requires Valid()
      modifies this
      ensures Valid()
      ensures accounts == old(accounts) && wishlist == old(wishlist) && issued == old(issued)
      ensures habitId in old(habits) ==>
                r == Success((habitId, old(habits)[habitId])) && habits == old(habits) - {habitId}
      ensures habitId !in old(habits) ==> r == Failure(InvalidHabitId) && habits == old(habits)
    {
      if habitId !in habits {
        return Failure(InvalidHabitId);
      }
      r := Success((habitId, habits[habitId]));
      habits := habits - {habitId};
    }

    /** delete_wishlist_entry: find_one_and_delete by _id. */
    method DeleteWishlistEntry(entryId: ObjectId) returns (r: Result<(ObjectId, WishlistEntry)>)
      requires Valid()
      modifies this
      ensures Valid()
      ensures accounts == old(accounts) && habits == old(habits) && issued == old(issued)
      ensures entryId in old(wishlist) ==>
                r == Success((entryId, old(wishlist)[entryId])) && wishlist == old(wishlist) - {entryId}
      ensures entryId !in old(wishlist) ==> r == Failure(InvalidHabitId) && wishlist == old(wishlist)
    {
      if entryId !in wishlist {
        return Failure(InvalidHabitId);
      }
      r := Success((entryId, wishlist[entryId]));
      wishlist := wishlist - {entryId};
    }
  }

  /** A habit whose owner still exists is among get_habits of the owner's
      email: the email picks out that one account. */
  lemma LinkedHabitIsListed(store: Store, habitId: ObjectId)
    requires store.Valid()
    requires habitId in store.habits && store.habits[habitId].accountId in store.accounts
    ensures var email := store.accounts[store.habits[habitId].accountId].email;
      store.GetHabits(email).Success? && habitId in store.GetHabits(email).value
  {
    var owner := store.habits[habitId].accountId;
    var email := store.accounts[owner].email;
    assert EmailTaken(store.accounts, email);
  }
}
