/** Callers of the store: sequences of database.py operations and what
    their contracts let a caller conclude about the outcome. */
module Scenarios {
  import opened EmailFormat
  import opened Passwords
  import opened Records
  import opened Database
  import opened Rendering

  /** Registering a new, well-formed address stores the hashed password; a
      lookup finds the account, validate_user accepts the password (and, if
      the derivation separates passwords, only it), and registering the
      same address again fails. */
  method RegisterTwice(store: Store, email: string, password: string, displayName: string,
                       salt: Bytes, otherSalt: Bytes, newId: ObjectId, otherId: ObjectId)
    returns (first: Result<(ObjectId, Account)>, second: Result<(ObjectId, Account)>)
    requires store.Valid()
    requires IsValidEmail(email) && !EmailTaken(store.accounts, email)
    requires newId !in store.issued && otherId !in store.issued && newId != otherId
    modifies store
    ensures store.Valid()
    ensures first == Success((newId, Account(email, HashPassword(store.kdf, password, salt), displayName)))
    ensures second == Failure(EmailAlreadyExists)
    ensures store.GetAccountUsingEmail(email) == Some(first.value)
    ensures store.ValidateUser(email, password) == Success(first.value)
    ensures SeparatesPasswords(store.kdf) ==>
              forall guess :: guess != password ==> store.ValidateUser(email, guess) == Failure(PasswordMismatch)
  {
    first := store.CreateAccount(email, password, displayName, salt, newId);
    CheckAcceptsOwnHash(store.kdf, password, salt);
    assert store.accounts[newId].email == email;
    second := store.CreateAccount(email, password, displayName, otherSalt, otherId);
    if SeparatesPasswords(store.kdf) {
      forall guess | guess != password
        ensures store.ValidateUser(email, guess) == Failure(PasswordMismatch)
      {
        CheckAcceptsOnlyOwnPassword(store.kdf, password, guess, salt);
      }
    }
  }

  /** create_habit("Run", "GOOD", e) stores a "good" habit with 0 points;
      get_habits(e) then lists it, and after delete_habit it is gone and
      nothing else in the listing changed. */
  method HabitRoundTrip(store: Store, email: string, habitId: ObjectId)
    returns (created: Result<map<string, string>>, listed: Result<map<ObjectId, Habit>>,
             deleted: Result<(ObjectId, Habit)>, relisted: Result<map<ObjectId, Habit>>)
    requires store.Valid()
    requires EmailTaken(store.accounts, email) && habitId !in store.issued
    modifies store
    ensures store.Valid()
    ensures created.Success? && "habit_type" in created.value && "points" in created.value
    ensures created.value["habit_type"] == "good" && created.value["points"] == "0"
    ensures listed.Success? && habitId in listed.value
    ensures listed.value[habitId].habitType == "good" && listed.value[habitId].points == 0
    ensures deleted.Success? && deleted.value == (habitId, listed.value[habitId])
    ensures relisted.Success? && relisted.value == listed.value - {habitId}
  {
    created := store.CreateHabit("Run", "GOOD", email, habitId);
    assert NormalizeHabitType("GOOD") == Some("good") by {
      HabitTypeExamples();
    }
    listed := store.GetHabits(email);
    deleted := store.DeleteHabit(habitId);
    relisted := store.GetHabits(email);
  }

  /** An unknown email is reported before the habit type is looked at. */
  method UnknownEmailBeforeType(store: Store, email: string, habitId: ObjectId)
    returns (r: Result<map<string, string>>)
    requires store.Valid()
    requires !EmailTaken(store.accounts, email) && habitId !in store.issued
    modifies store
    ensures r == Failure(EmailNotLinked)
    ensures store.habits == old(store.habits)
  {
    r := store.CreateHabit("Run", "excellent", email, habitId);
  }

  /** An int cost and a bool cost are stored; a float cost is refused. */
  method WishlistCosts(store: Store, email: string, bikeId: ObjectId, flagId: ObjectId, floatId: ObjectId)
    returns (bike: Result<map<string, string>>, flag: Result<map<string, string>>, float: Result<map<string, string>>)
    requires store.Valid()
    requires EmailTaken(store.accounts, email)
    requires bikeId !in store.issued && flagId !in store.issued && floatId !in store.issued
    requires bikeId != flagId && floatId != bikeId && floatId != flagId
    modifies store
    ensures store.Valid()
    ensures bike.Success? && "cost" in bike.value && ParseInt(bike.value["cost"]) == 500
    ensures flag.Success? && "cost" in flag.value && flag.value["cost"] == "True"
    ensures float == Failure(CostNotInteger)
    ensures store.wishlist.Keys == old(store.wishlist.Keys) + {bikeId, flagId}
  {
    assert FitsBson(PyInt(500)) && FitsBson(PyBool(true));
    bike := store.CreateWishlistEntry("Bike", PyInt(500), email, bikeId);
    WishlistStringsDecode(bikeId, WishlistEntry("Bike", PyInt(500), store.GetAccountUsingEmail(email).value.0));
    flag := store.CreateWishlistEntry("Flag", PyBool(true), email, flagId);
    float := store.CreateWishlistEntry("Bike", PyOther("12.5"), email, floatId);
  }

  /** The largest 8-byte cost is stored; 2 ** 63 passes isinstance but bson
      cannot encode it, so it raises and nothing is stored, though its _id
      has been used up. */
  method OversizedCost(store: Store, email: string, maxId: ObjectId, hugeId: ObjectId)
    returns (max: Result<map<string, string>>, huge: Result<map<string, string>>)
    requires store.Valid()
    requires EmailTaken(store.accounts, email)
    requires maxId !in store.issued && hugeId !in store.issued && maxId != hugeId
    modifies store
    ensures store.Valid()
    ensures max.Success? && huge == Failure(IntegerTooLarge)
    ensures store.wishlist.Keys == old(store.wishlist.Keys) + {maxId}
    ensures hugeId in store.issued && hugeId !in store.wishlist
  {
    max := store.CreateWishlistEntry("Car", PyInt(0x7fff_ffff_ffff_ffff), email, maxId);
    huge := store.CreateWishlistEntry("Car", PyInt(0x8000_0000_0000_0000), email, hugeId);
  }

  /** Deleting an account leaves its habits behind, still readable by id
      but no longer linked to any account. The account's id stays issued,
      so no later insert can take it and adopt those habits. */
  method DeleteAccountOrphansHabits(store: Store, habitId: ObjectId) returns (r: Result<(ObjectId, Account)>)
    requires store.Valid()
    requires habitId in store.habits && store.habits[habitId].accountId in store.accounts
    modifies store
    ensures r.Success?
    ensures store.GetHabit(habitId) == old(store.GetHabit(habitId))
    ensures store.habits[habitId].accountId !in store.accounts
    ensures store.habits[habitId].accountId in store.issued
  {
    r := store.DeleteAccount(store.habits[habitId].accountId);
  }

  /** Deleting an id that is not there fails and changes nothing. */
  method DeleteMissing(store: Store, id: ObjectId)
    returns (a: Result<(ObjectId, Account)>, h: Result<(ObjectId, Habit)>, w: Result<(ObjectId, WishlistEntry)>)
    requires store.Valid()
    requires id !in store.accounts && id !in store.habits && id !in store.wishlist
    modifies store
    ensures a == Failure(InvalidHabitId) && h == Failure(InvalidHabitId) && w == Failure(InvalidHabitId)
    ensures store.accounts == old(store.accounts) && store.habits == old(store.habits)
    ensures store.wishlist == old(store.wishlist)
  {
    a := store.DeleteAccount(id);
    h := store.DeleteHabit(id);
    w := store.DeleteWishlistEntry(id);
  }
}
