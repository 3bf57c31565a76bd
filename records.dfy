/** The documents of the three collections (account, habit, wishlist), the
    errors database.py raises, the habit-type normalisation and the
    stringified dicts that create_habit and create_wishlist_entry return. */
module Records {
  import opened AsciiCase
  import opened Rendering
  import opened Passwords

  /** A bson ObjectId: twelve bytes, read here as one big-endian number. */
  newtype ObjectId = n: int | 0 <= n < 0x1_0000_0000_0000_0000_0000_0000

  /** str() of an ObjectId: its twelve bytes as 24 lower-case hex digits. */
  function IdString(id: ObjectId): (s: string)
    ensures |s| == 24
  {
    Hex(id as int, 24)
  }

  /** Reading the 24 digits back gives the id: str() loses nothing. */
  lemma IdStringRoundTrip(id: ObjectId)
    ensures ParseDigits(IdString(id), 16) == id as int
  {
    Pow16Of24();
    HexRoundTrip(id as int, 24);
  }

  lemma IdStringInjective(a: ObjectId, b: ObjectId)
    ensures IdString(a) == IdString(b) <==> a == b
  {
    IdStringRoundTrip(a);
    IdStringRoundTrip(b);
  }

  /** A document of the account collection (without its _id). */
  datatype Account = Account(email: string, password: PasswordHash, displayName: string)

  /** A document of the habit collection (without its _id). */
  datatype Habit = Habit(habitName: string, habitType: string, points: int, accountId: ObjectId)

  /** The Python values a caller may pass as a wishlist cost. */
  datatype PyValue =
    | PyInt(i: int)
    | PyBool(b: bool)
    | PyOther(text: string)  // a float, a str, None, ...: any other object, by its str()

  /** isinstance(v, int): bool is a subclass of int, so True and False pass,
      and every value that is neither is refused. */
  predicate IsInstanceInt(v: PyValue): (r: bool)
    ensures r <==> !v.PyOther?
  {
    v.PyInt? || v.PyBool?
  }

  /** The classes of those values. */
  datatype PyClass = IntClass | BoolClass | OtherClass

  /** type(v). */
  function ClassOf(v: PyValue): PyClass {
    match v
    case PyInt(_) => IntClass
    case PyBool(_) => BoolClass
    case PyOther(_) => OtherClass
  }

  /** issubclass(c, d) among these classes: each class is a subclass of
      itself, and bool is declared as a subclass of int. */
  predicate IsSubclass(c: PyClass, d: PyClass) {
    c == d || (c == BoolClass && d == IntClass)
  }

  /** isinstance(v, int) is issubclass(type(v), int). */
  lemma IsInstanceIntIsSubclass(v: PyValue)
    ensures IsInstanceInt(v) <==> IsSubclass(ClassOf(v), IntClass)
  {
  }

  /** bson stores a Python int as a signed 8-byte integer (a bool is a BSON
      boolean of its own), so an int outside that range cannot be encoded. */
  predicate FitsBson(v: PyValue): (r: bool)
    ensures v.PyInt? ==> (r <==> -0x8000_0000_0000_0000 <= v.i < 0x8000_0000_0000_0000)
    ensures !v.PyInt? ==> r
  {
    match v
    case PyInt(i) => -0x8000_0000_0000_0000 <= i <= 0x7fff_ffff_ffff_ffff
    case _ => true
  }

  /** The signed integer that 8 bytes, read as the unsigned number u, stand
      for in two's complement: the int64 that BSON stores. */
  function Int64Value(u: nat): int
    requires u < 0x1_0000_0000_0000_0000
  {
    if u < 0x8000_0000_0000_0000 then u else u - 0x1_0000_0000_0000_0000
  }

  /** An int passes the range check exactly when some 8 bytes encode it. */
  lemma FitsBsonExactlyInt64(i: int)
    ensures FitsBson(PyInt(i)) <==> exists u: nat :: u < 0x1_0000_0000_0000_0000 && Int64Value(u) == i
  {
    if FitsBson(PyInt(i)) {
      var u: nat := if i >= 0 then i else i + 0x1_0000_0000_0000_0000;
      assert Int64Value(u) == i;
    }
  }

  /** str(v). */
  function Str(v: PyValue): string {
    match v
    case PyInt(i) => ShowInt(i)
    case PyBool(b) => if b then "True" else "False"
    case PyOther(text) => text
  }

  /** A document of the wishlist collection (without its _id). */
  datatype WishlistEntry = WishlistEntry(name: string, cost: PyValue, accountId: ObjectId)

  /** The ValueErrors database.py raises, and the OverflowError bson raises
      when insert_one meets an int it cannot encode. That message is the one
      of bson's C extension; its pure-Python encoder says "BSON can only
      handle up to 8-byte ints" instead. */
  datatype Error =
    | InvalidEmailFormat
    | EmailAlreadyExists
    | EmailNotLinked
    | InvalidHabitType
    | CostNotInteger
    | HabitNotFound
    | InvalidHabitId
    | EmailNotRegistered
    | PasswordMismatch
    | IntegerTooLarge
  {
    function Message(): (m: string)
      ensures |m| > 0
    {
      match this
      case InvalidEmailFormat => "Email has invalid format."
      case EmailAlreadyExists => "Email already exists."
      case EmailNotLinked => "Email does not link to a valid account."
      case InvalidHabitType => "Habit type must be 'good' or 'bad'."
      case CostNotInteger => "Cost given is not an integer."
      case HabitNotFound => "Habit not found."
      // delete_account and delete_wishlist_entry raise this message too
      case InvalidHabitId => "Invalid habit ID."
      case EmailNotRegistered => "Email does not exist in account database."
      case PasswordMismatch => "Given password does not match account password."
      case IntegerTooLarge => "MongoDB can only handle up to 8-byte ints"
    }
  }

  /** The length of each message. Only two messages have the same length.
      (A fact about this message table, used by MessagesDistinct.) */
  lemma MessageLength(e: Error)
    ensures |e.Message()| ==
      match e
      case InvalidEmailFormat => 25
      case EmailAlreadyExists => 21
      case EmailNotLinked => 39
      case InvalidHabitType => 35
      case CostNotInteger => 29
      case HabitNotFound => 16
      case InvalidHabitId => 17
      case EmailNotRegistered => 41
      case PasswordMismatch => 47
      case IntegerTooLarge => 41
  {
  }

  /** Each error has its own message, so a caller can tell them apart by
      text. This holds because the model has one constructor per distinct
      text raised; the three deletes share "Invalid habit ID." and so share
      one constructor. database.py itself promises no such thing. */
  lemma MessagesDistinct(a: Error, b: Error)
    ensures a.Message() == b.Message() <==> a == b
  {
    MessageLength(a);
    MessageLength(b);
    // the two messages of length 41 differ in their first letter
    if a != b && |a.Message()| == |b.Message()| {
      assert a.Message()[0] != b.Message()[0];
    }
  }

  datatype Option<T> = None | Some(value: T)

  /** A value, or the ValueError raised instead. */
  datatype Result<T> = Success(value: T) | Failure(error: Error)

  /** habit_type.lower() if it is "good" or "bad", otherwise nothing. */
  function NormalizeHabitType(habitType: string): (r: Option<string>)
    ensures r.Some? ==> r.value == "good" || r.value == "bad"
  {
    var t := Lower(habitType);
    if t == "good" || t == "bad" then Some(t) else None
  }

  /** The habit types accepted are exactly the spellings of "good" and
      "bad" in any mix of case, and each is stored lower-cased. */
  lemma NormalizeHabitTypeCases(habitType: string)
    ensures NormalizeHabitType(habitType) == Some("good") <==> SpellsIgnoringCase(habitType, "good")
    ensures NormalizeHabitType(habitType) == Some("bad") <==> SpellsIgnoringCase(habitType, "bad")
    ensures NormalizeHabitType(habitType) == None <==>
              !SpellsIgnoringCase(habitType, "good") && !SpellsIgnoringCase(habitType, "bad")
  {
    LowerMatchesSpelling(habitType, "good");
    LowerMatchesSpelling(habitType, "bad");
  }

  /** A normalised habit type normalises to itself. */
  lemma NormalizeHabitTypeIdempotent(habitType: string)
    requires NormalizeHabitType(habitType).Some?
    ensures NormalizeHabitType(NormalizeHabitType(habitType).value) == NormalizeHabitType(habitType)
  {
    LowerIdempotent(habitType);
  }

  lemma HabitTypeExamples()
    ensures NormalizeHabitType("GOOD") == Some("good")
    ensures NormalizeHabitType("Bad") == Some("bad")
    ensures NormalizeHabitType("excellent") == None
  {
    NormalizeHabitTypeCases("GOOD");
    NormalizeHabitTypeCases("Bad");
    NormalizeHabitTypeCases("excellent");
  }

  /** The dict create_habit returns: every field of the inserted document,
      including the _id that insert_one added to it, passed through str(). */
  function HabitStrings(id: ObjectId, habit: Habit): map<string, string> {
    map[
      "habit_name" := habit.habitName,
      "habit_type" := habit.habitType,
      "points" := ShowInt(habit.points),
      "account_id" := IdString(habit.accountId),
      "_id" := IdString(id)
    ]
  }

  /** Each value of that dict reads back as the field it came from. */
  lemma HabitStringsDecode(id: ObjectId, habit: Habit)
    ensures var d := HabitStrings(id, habit);
      && d.Keys == {"habit_name", "habit_type", "points", "account_id", "_id"}
      && d["habit_name"] == habit.habitName
      && d["habit_type"] == habit.habitType
      && ParseInt(d["points"]) == habit.points
      && ParseDigits(d["account_id"], 16) == habit.accountId as int
      && ParseDigits(d["_id"], 16) == id as int
  {
    ShowIntRoundTrip(habit.points);
    IdStringRoundTrip(habit.accountId);
    IdStringRoundTrip(id);
  }

  /** The dict create_wishlist_entry returns, built the same way. */
  function WishlistStrings(id: ObjectId, entry: WishlistEntry): map<string, string> {
    map[
      "name" := entry.name,
      "cost" := Str(entry.cost),
      "account_id" := IdString(entry.accountId),
      "_id" := IdString(id)
    ]
  }

  /** Each value of that dict reads back as the field it came from; an int
      cost as its number, a bool cost as "True" or "False". */
  lemma WishlistStringsDecode(id: ObjectId, entry: WishlistEntry)
    ensures var d := WishlistStrings(id, entry);
      && d.Keys == {"name", "cost", "account_id", "_id"}
      && d["name"] == entry.name
      && (entry.cost.PyInt? ==> ParseInt(d["cost"]) == entry.cost.i)
      && (entry.cost.PyBool? ==> d["cost"] == if entry.cost.b then "True" else "False")
      && ParseDigits(d["account_id"], 16) == entry.accountId as int
      && ParseDigits(d["_id"], 16) == id as int
  {
    if entry.cost.PyInt? {
      ShowIntRoundTrip(entry.cost.i);
    }
    IdStringRoundTrip(entry.accountId);
    IdStringRoundTrip(id);
  }
}
