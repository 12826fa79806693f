/** How a reservation id that is already booked is made unique: with the first free numeric suffix. */
module ReservationIds {
  type ResId = string

  /** A number in decimal. */
  function Digits(n: nat): string {
    if n < 10 then [Digit(n)] else Digits(n / 10) + [Digit(n % 10)]
  }

  function Digit(d: nat): char
    requires d < 10
  {
    ('0' as int + d) as char
  }

  function Suffixed(base: ResId, i: nat): ResId { base + "-" + Digits(i) }

  /** The number a string of digits stands for. */
  function Number(s: string): int {
    if s == "" then 0 else Number(s[..|s| - 1]) * 10 + (s[|s| - 1] as int - '0' as int)
  }

  lemma {:induction false} NumberOfDigits(n: nat)
    ensures Number(Digits(n)) == n
  {
    if n >= 10 {
      NumberOfDigits(n / 10);
      assert Digits(n)[..|Digits(n)| - 1] == Digits(n / 10);
    } else {
      assert Number(Digits(n)[..0]) == 0;
    }
  }

  lemma SuffixesDiffer(base: ResId, i: nat, j: nat)
    requires i != j
    ensures Suffixed(base, i) != Suffixed(base, j)
  {
    NumberOfDigits(i);
    NumberOfDigits(j);
    assert Digits(i) == Suffixed(base, i)[|base| + 1..] && Digits(j) == Suffixed(base, j)[|base| + 1..];
  }

  /** The first suffix from i on that is not taken. */
  function FirstFree(taken: set<ResId>, base: ResId, i: nat): nat
    decreases |taken|
  {
    if Suffixed(base, i) !in taken then i else FirstFree(taken - {Suffixed(base, i)}, base, i + 1)
  }

  /** The id itself if it is free, or else with the first free suffix from one up. */
  function UniqueId(taken: set<ResId>, id: ResId): ResId {
    if id in taken then Suffixed(id, FirstFree(taken, id, 1)) else id
  }

  /** The search ends at a free suffix, and all before it are taken. */
  lemma {:induction false} FirstFreeIs(taken: set<ResId>, base: ResId, i: nat)
    ensures var k := FirstFree(taken, base, i);
            && i <= k && Suffixed(base, k) !in taken
            && forall j :: i <= j < k ==> Suffixed(base, j) in taken
    decreases |taken|
  {
    if Suffixed(base, i) in taken {
      var less := taken - {Suffixed(base, i)};
      FirstFreeIs(less, base, i + 1);
      SuffixesDiffer(base, i, FirstFree(less, base, i + 1));
    }
  }

  /** Whatever is booked, the id comes out free, and unchanged if it was free. */
  lemma {:induction false} UniqueIdIsFree(taken: set<ResId>, id: ResId)
    ensures UniqueId(taken, id) !in taken && (UniqueId(taken, id) == id <==> id !in taken)
  {
    if id in taken {
      FirstFreeIs(taken, id, 1);
    }
  }

  /** No free suffix is passed over. */
  lemma {:induction false} FirstFreeUnique(taken: set<ResId>, base: ResId, i: nat, k: nat)
    requires i <= k && Suffixed(base, k) !in taken && forall j :: i <= j < k ==> Suffixed(base, j) in taken
    ensures FirstFree(taken, base, i) == k
  {
    FirstFreeIs(taken, base, i);
  }

  /** The program's loop, which counts up until a suffix is free. */
  method EnsureUniqueReservationID(taken: set<ResId>, id: ResId, generated: ResId) returns (r: ResId)
    ensures r == UniqueId(taken, if id == "" then generated else id)
  {
    r := if id == "" then generated else id;
    if r in taken {
      var base := r;
      FirstFreeIs(taken, base, 1);
      var i := 1;
      r := Suffixed(base, i);
      while r in taken
        invariant 1 <= i <= FirstFree(taken, base, 1) && r == Suffixed(base, i)
        invariant forall j :: 1 <= j < i ==> Suffixed(base, j) in taken
        decreases FirstFree(taken, base, 1) - i
      {
        i := i + 1;
        r := Suffixed(base, i);
      }
      FirstFreeUnique(taken, base, 1, i);
    }
  }
}
