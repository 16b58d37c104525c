/** Configurations and tokens that the example runs of several components share. */
module Samples {
  import opened Sequences
  import opened Sessions
  import opened AuthStore
  import opened LoginProtocol

  /** Token hashes, one for each first digit. */
  function Hash(c: char): (r: string)
    ensures |r| == 64 && r[0] == c
  {
    [c] + seq(63, i => 'a')
  }

  lemma HashIsHex(c: char)
    requires IsHexDigit(c)
    ensures IsSha256Hex(Hash(c))
  {
  }

  const HEX := Hash('a')
  const TOKEN := "t"
  const ON := Totp(true, "s")
  const OFF := Totp(false, "")

  /** The administrator is signed in, with the token HEX. */
  const ADMIN_STORE := Store([Session(HEX, 1, 100, Id(ADMIN_USER_ID))], Slot(HEX, 100), 1, 30)
  const ADMIN_ISSUED := map[HEX := Issued(ADMIN_USER_ID, 0, 1)]

  lemma AdminToken(a: Auth, now: int)
    requires a.store == ADMIN_STORE && now < 100
    ensures CurrentUser(a, now, Some(HEX)) == Some(ADMIN_USER_ID)
  {
    var session := a.store.sessions[0];
    HashIsHex('a');
    assert HasHash(a.store.sessions, HEX);
    assert Opens(now, HEX)(session);
    FilterCons(Opens(now, HEX), session, []);
  }

  lemma AdminInv(s: State)
    requires WellFormed(s.auth) && s.auth.store == ADMIN_STORE && s.clock == 1
    requires s.issued == ADMIN_ISSUED && s.barrier == map[]
    ensures Inv(s)
  {
    assert s.auth.store.sessions[0].tokenHash == HEX;
    assert HasHash(s.auth.store.sessions, HEX);
  }

  lemma PruneSingle(s: Session, now: int)
    requires IsLive(now)(s)
    ensures Prune([s], now) == [s]
  {
    var u := OwnerId(s);
    FilterAll(IsLive(now), [s]);
    FilterAll(IsOwner(u), [s]);
    assert [s][..0] == [] && Owners([]) == [];
    assert Owners([s]) == [u];
    assert [u][..0] == [] && Capped([s], []) == [];
    assert Capped([s], [u]) == [s];
    SortOfSorted([s]);
  }

  /** A change of the administrator's two-factor spares the session it is made from. */
  lemma AdminStays(now: int)
    requires now < 100
    ensures ClearUserExcept(ADMIN_STORE, now, ADMIN_USER_ID, Some(HEX)) == ADMIN_STORE
  {
    HashIsHex('a');
    var l := ADMIN_STORE.sessions;
    PruneSingle(l[0], now);
    assert HasHash(l, HEX);
    MirrorHidesSlot(ADMIN_STORE);
    hide Prune, Iter;
    FilterAll(NotOfExcept(ADMIN_USER_ID, Some(HEX)), l);
  }
}
