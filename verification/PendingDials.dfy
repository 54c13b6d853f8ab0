/** Dials waiting for a verdict, and the peerings callers authenticate into
    (apps/tunnel/socks.go, peering.go, main.go). */
module PendingDials {
  import opened Engine

  const WORD := 0x1_0000_0000_0000_0000

  // --- Ids ---------------------------------------------------------------------

  function Digit(d: nat): char
    requires d < 10
  {
    ('0' as int + d) as char
  }

  /** A number in decimal. */
  function FormatUint(n: nat): string {
    if n < 10 then [Digit(n)] else FormatUint(n / 10) + [Digit(n % 10)]
  }

  function ParseUint(s: string): int {
    if s == [] then 0 else ParseUint(s[..|s| - 1]) * 10 + (s[|s| - 1] as int - '0' as int)
  }

  lemma {:induction false} FormatRoundTrip(n: nat)
    ensures ParseUint(FormatUint(n)) == n
  {
    var s := FormatUint(n);
    if n < 10 {
      assert s[..0] == [];
    } else {
      FormatRoundTrip(n / 10);
      assert s[..|s| - 1] == FormatUint(n / 10);
      assert s[|s| - 1] == Digit(n % 10);
    }
  }

  lemma {:induction false} FormatInjective(m: nat, n: nat)
    requires FormatUint(m) == FormatUint(n)
    ensures m == n
  {
    FormatRoundTrip(m);
    FormatRoundTrip(n);
  }

  // --- The table of waiting dials ----------------------------------------------

  /** The last id handed out, a 64-bit counter, and who waits under each id. */
  datatype Table<C> = Table(next: nat, waiting: map<string, C>)

  function EmptyTable<C>(): Table<C> {
    Table(0, map[])
  }

  function NextId<C>(t: Table<C>): string {
    FormatUint((t.next + 1) % WORD)
  }

  function OpenIn<C>(t: Table<C>, waiter: C): Table<C> {
    Table((t.next + 1) % WORD, t.waiting[NextId(t) := waiter])
  }

  function CloseIn<C>(t: Table<C>, id: string): Table<C> {
    Table(t.next, t.waiting - {id})
  }

  function Waiter<C>(t: Table<C>, id: string): Option<C> {
    if id in t.waiting then Some(t.waiting[id]) else None
  }

  /** The answer to one dial; an empty refusal allows it. */
  datatype Address = Address(host: string, port: nat)
  datatype Verdict = Verdict(address: Address, refusal: string)

  const ZERO_ADDRESS := Address("", 0)

  /** The commands that answer a dial. An allowed address has been parsed, or could not be. */
  datatype Instruction = DialAllow(id: string, address: Option<Address>) | DialDeny(id: string, message: string)

  function VerdictOf(instruction: Instruction): Verdict {
    match instruction
    case DialAllow(_, Some(address)) => Verdict(address, "")
    case DialAllow(_, None) => Verdict(ZERO_ADDRESS, "the allowed address is not an ip:port")
    case DialDeny(_, message) => Verdict(ZERO_ADDRESS, if message == "" then "the api refused this dial" else message)
  }

  /** Only an allowance of a readable address allows, and only that address. */
  lemma {:induction false} AllowsExactly(instruction: Instruction, address: Address)
    ensures VerdictOf(instruction) == Verdict(address, "") <==> instruction == DialAllow(instruction.id, Some(address))
  {
  }

  /** A channel with room for one answer. */
  class Channel {
    var slot: Option<Verdict>

    constructor ()
      ensures slot == None
    {
      slot := None;
    }
  }

  class Verdicts {
    var next: nat
    var waiting: map<string, Channel>

    ghost function Contents(): Table<Channel>
      reads this
    {
      Table(next, waiting)
    }

    /** Nobody waits twice, and nobody who waits has been answered. */
    ghost predicate Valid()
      reads this, waiting.Values
    {
      && next < WORD
      && (forall id :: id in waiting ==> waiting[id].slot.None?)
      && (forall i, j :: i in waiting && j in waiting && i != j ==> waiting[i] != waiting[j])
    }

    constructor ()
      ensures Valid() && Contents() == EmptyTable()
    {
      next := 0;
      waiting := map[];
    }

    method Open() returns (id: string, channel: Channel)
      requires Valid()
      modifies this
      ensures Valid() && fresh(channel) && channel.slot.None?
      ensures id == NextId(old(Contents())) && Contents() == OpenIn(old(Contents()), channel)
    {
      next := (next + 1) % WORD;
      id := FormatUint(next);
      channel := new Channel();
      waiting := waiting[id := channel];
    }

    method Close(id: string)
      requires Valid()
      modifies this
      ensures Valid() && Contents() == CloseIn(old(Contents()), id)
    {
      waiting := waiting - {id};
    }

    /** Answers whoever waits under an id, once: the waiter leaves the table before the answer
        is sent, and its channel is the only one written. */
    method Deliver(id: string, answer: Verdict) returns (found: bool)
      requires Valid()
      modifies this, waiting.Values
      ensures Valid() && Contents() == CloseIn(old(Contents()), id)
      ensures found <==> Waiter(old(Contents()), id).Some?
      ensures found ==> old(waiting)[id].slot == Some(answer)
      ensures forall other :: other in old(waiting) && other != id ==> old(waiting)[other].slot.None?
    {
      found := id in waiting;
      if !found {
        assert waiting - {id} == waiting;
        return;
      }
      var channel := waiting[id];
      waiting := waiting - {id};
      assert channel.slot.None?;
      channel.slot := Some(answer);
    }
  }

  /** What the api is told of an answer that went wrong. */
  datatype Problem = NobodyWaiting(id: string) | Unreadable(id: string)

  /** One answer from the control stream, delivered. */
  method Dispatch(instruction: Instruction, pending: Verdicts) returns (event: Option<Problem>)
    requires pending.Valid()
    modifies pending, pending.waiting.Values
    ensures pending.Valid() && pending.Contents() == CloseIn(old(pending.Contents()), instruction.id)
    ensures instruction.id in old(pending.waiting) ==>
      old(pending.waiting)[instruction.id].slot == Some(VerdictOf(instruction))
    ensures forall other :: other in old(pending.waiting) && other != instruction.id ==>
      old(pending.waiting)[other].slot.None?
    ensures event == (if instruction.id !in old(pending.waiting) then Some(NobodyWaiting(instruction.id))
                      else if instruction.DialAllow? && instruction.address.None? then Some(Unreadable(instruction.id))
                      else None)
  {
    match instruction
    case DialAllow(id, address) =>
      if address.None? {
        var found := pending.Deliver(id, Verdict(ZERO_ADDRESS, "the allowed address is not an ip:port"));
        event := Some(if found then Unreadable(id) else NobodyWaiting(id));
      } else {
        var found := pending.Deliver(id, Verdict(address.value, ""));
        event := if found then None else Some(NobodyWaiting(id));
      }
    case DialDeny(id, message) =>
      var refusal := if message == "" then "the api refused this dial" else message;
      var found := pending.Deliver(id, Verdict(ZERO_ADDRESS, refusal));
      event := if found then None else Some(NobodyWaiting(id));
  }

  // --- The registry ------------------------------------------------------------

  /** A peering as callers select it. */
  datatype Entry = Entry(peering: nat, username: string, password: string)

  type Peerings = map<string, Entry>

  /** Registers unless the credential is held. */
  function AddTo(peerings: Peerings, entry: Entry): Option<Peerings> {
    if entry.username in peerings then None else Some(peerings[entry.username := entry])
  }

  function RemoveFrom(peerings: Peerings, entry: Entry): Peerings {
    peerings - {entry.username}
  }

  function AuthenticateIn(peerings: Peerings, username: string, password: string): Option<Entry> {
    if username in peerings && peerings[username].username == username && peerings[username].password == password
    then Some(peerings[username]) else None
  }

  predicate KeyedByName(peerings: Peerings) {
    forall name :: name in peerings ==> peerings[name].username == name
  }

  class Registry {
    var peerings: Peerings

    ghost predicate Valid()
      reads this
    {
      KeyedByName(peerings)
    }

    constructor ()
      ensures Valid() && peerings == map[]
    {
      peerings := map[];
    }

    /** Adds under fresh credentials; never replaces a live peering. */
    method Add(peering: nat, username: string, password: string) returns (entry: Option<Entry>)
      requires Valid()
      modifies this
      ensures Valid()
      ensures
        var added := AddTo(old(peerings), Entry(peering, username, password));
        && (entry.Some? <==> added.Some?)
        && (entry.Some? ==> entry.value == Entry(peering, username, password) && peerings == added.value)
        && (entry.None? ==> peerings == old(peerings))
    {
      var made := Entry(peering, username, password);
      if username in peerings {
        return None;
      }
      peerings := peerings[username := made];
      return Some(made);
    }

    method Remove(entry: Entry)
      requires Valid()
      modifies this
      ensures Valid() && peerings == RemoveFrom(old(peerings), entry)
    {
      peerings := peerings - {entry.username};
    }

    method Authenticate(username: string, password: string) returns (entry: Option<Entry>)
      ensures entry == AuthenticateIn(peerings, username, password)
    {
      if username !in peerings {
        return None;
      }
      var found := peerings[username];
      if !(found.username == username && found.password == password) {
        return None;
      }
      return Some(found);
    }
  }

  /** Adding and then removing a peering changes nothing for anyone else. While it is in, the
      count is one more, its own credentials select it and no one else's do. */
  lemma {:induction false} RegistryRoundTrip(peerings: Peerings, entry: Entry, username: string, password: string)
    requires KeyedByName(peerings) && AddTo(peerings, entry).Some?
    ensures
      var added := AddTo(peerings, entry).value;
      && RemoveFrom(added, entry) == peerings && |added| == |peerings| + 1
      && AuthenticateIn(added, username, password)
        == (if username != entry.username then AuthenticateIn(peerings, username, password)
            else if password == entry.password then Some(entry) else None)
  {
    var added := AddTo(peerings, entry).value;
    assert RemoveFrom(added, entry) == peerings;
  }
}
