/** The task record `TodoItem` and its three initialisers.

    `Date` is a natural-number timestamp; the initialisers that read the clock
    (`Date()`) take the current time as the parameter `now`. A `TodoItem` is an
    immutable value here, so its `let id` cannot change: an "update" builds a
    new value. */
module TodoItems {
  import opened Wrappers

  datatype TodoItem = TodoItem(
    id: int,
    title: string,
    description: string,
    createdAt: nat,
    isCompleted: bool
  )

  /** One element of the remote list: the fields of the server's `Todo` that
      the mapping reads. */
  datatype RemoteTodo = RemoteTodo(id: int, todo: string, completed: bool)

  /** The title of a seeded task is this prefix followed by the id. */
  const RemoteTitlePrefix: string := "Задача №"

  // ---------------------------------------------------------------------
  // Decimal text of an integer, as Swift's string interpolation writes it
  // ---------------------------------------------------------------------

  predicate IsDigit(c: char)
  {
    '0' <= c <= '9'
  }

  predicate AllDigits(s: string)
  {
    forall i :: 0 <= i < |s| ==> IsDigit(s[i])
  }

  function DigitChar(d: nat): (c: char)
    requires d < 10
    ensures IsDigit(c) && c as int - '0' as int == d
  {
    ('0' as int + d) as char
  }

  /** Decimal digits of `n`, most significant first, without leading zeros. */
  function NatToDecimal(n: nat): (s: string)
    ensures s != [] && AllDigits(s)
    ensures |s| > 1 ==> s[0] != '0'
    decreases n
  {
    if n < 10 then [DigitChar(n)] else NatToDecimal(n / 10) + [DigitChar(n % 10)]
  }

  /** `"\(i)"`: a minus sign for negative numbers, then the digits. */
  function IntToDecimal(i: int): string
  {
    if i < 0 then "-" + NatToDecimal(-i) else NatToDecimal(i)
  }

  /** The value of a string of decimal digits. */
  function DecimalToNat(s: string): nat
    requires AllDigits(s)
    decreases |s|
  {
    if s == [] then 0
    else DecimalToNat(s[..|s| - 1]) * 10 + (s[|s| - 1] as int - '0' as int)
  }

  /** Reads back what IntToDecimal writes; anything else is None. */
  function DecimalToInt(s: string): Option<int>
  {
    if s != [] && s[0] == '-' then
      if s[1..] != [] && AllDigits(s[1..]) then Some(-(DecimalToNat(s[1..]) as int)) else None
    else if s != [] && AllDigits(s) then Some(DecimalToNat(s))
    else None
  }

  lemma {:induction false} NatDecimalRoundTrip(n: nat)
    ensures DecimalToNat(NatToDecimal(n)) == n
    decreases n
  {
    if n >= 10 {
      var s := NatToDecimal(n);
      NatDecimalRoundTrip(n / 10);
      assert s[..|s| - 1] == NatToDecimal(n / 10);
    }
  }

  /** Writing an integer in decimal and reading it back gives the integer. */
  lemma IntDecimalRoundTrip(i: int)
    ensures DecimalToInt(IntToDecimal(i)) == Some(i)
  {
    if i < 0 {
      var s := IntToDecimal(i);
      assert s[1..] == NatToDecimal(-i);
      NatDecimalRoundTrip(-i);
    } else {
      NatDecimalRoundTrip(i);
    }
  }

  // ---------------------------------------------------------------------
  // Initialisers
  // ---------------------------------------------------------------------

  /** The synthesised title of a seeded task. */
  function RemoteTitle(id: int): string
  {
    RemoteTitlePrefix + IntToDecimal(id)
  }

  /** The id a synthesised title names, if it is one. */
  function TitleId(title: string): Option<int>
  {
    if RemoteTitlePrefix <= title then DecimalToInt(title[|RemoteTitlePrefix|..]) else None
  }

  /** `init(from:)`: a task built from a remote element. The id and the
      completion flag are kept, the remote text becomes the description, the
      title names the id, and the creation time is the time of mapping. */
  function FromRemote(todo: RemoteTodo, now: nat): (r: TodoItem)
    ensures r.id == todo.id && r.description == todo.todo && r.isCompleted == todo.completed
    ensures r.createdAt == now
    ensures r.title == RemoteTitlePrefix + IntToDecimal(todo.id)
    ensures RemoteTitlePrefix <= r.title && TitleId(r.title) == Some(todo.id)
  {
    var title := RemoteTitle(todo.id);
    assert title[|RemoteTitlePrefix|..] == IntToDecimal(todo.id);
    IntDecimalRoundTrip(todo.id);
    TodoItem(todo.id, title, todo.todo, now, todo.completed)
  }

  /** Two remote elements with different ids get different titles. */
  lemma RemoteTitlesDistinct(a: RemoteTodo, b: RemoteTodo, now: nat, later: nat)
    requires a.id != b.id
    ensures FromRemote(a, now).title != FromRemote(b, later).title
  {
    var ta, tb := FromRemote(a, now).title, FromRemote(b, later).title;
    assert TitleId(ta) == Some(a.id) && TitleId(tb) == Some(b.id);
  }

  /** `init(id:title:description:createdAt:isCompleted:)`: every field as given. */
  function Make(id: int, title: string, description: string, createdAt: nat, isCompleted: bool): (r: TodoItem)
    ensures r.id == id && r.title == title && r.description == description
    ensures r.createdAt == createdAt && r.isCompleted == isCompleted
  {
    TodoItem(id, title, description, createdAt, isCompleted)
  }

  /** `init(id:title:description:isCompleted:)`: the full initialiser at the
      current time, with the completion flag defaulting to false. */
  function New(id: int, title: string, description: string, now: nat, isCompleted: bool := false): (r: TodoItem)
    ensures r == Make(id, title, description, now, isCompleted)
  {
    TodoItem(id, title, description, now, isCompleted)
  }

  /** Without the flag, a new task is not completed. */
  lemma NewIsNotCompleted(id: int, title: string, description: string, now: nat)
    ensures !New(id, title, description, now).isCompleted
    ensures New(id, title, description, now) == Make(id, title, description, now, false)
  {
  }
}
