/** Standing directives per account, with tombstones for explicit deletion (infra/standing_directives.py).
    The two JSON files are two maps; the hash that names a directive is a parameter. */
module Directives {
  import opened Common

  const MAX_DIRECTIVES: nat := 50

  datatype Directive = Directive(id: string, text: string)

  /** What is on disk: the directive list of each profile, and the tombstones outside the profiles. */
  datatype Store = Store(lists: map<int, seq<Directive>>, tombs: map<int, seq<string>>)

  /** The hash behind directive ids, the account that is seeded at boot (if it exists), and the seeded text. */
  datatype Config = Config(idOf: string -> string, admin: Option<int>, macro: string)

  // ----- Texts and ids -----

  predicate IsSpace(c: char) {
    c == ' ' || c == '\t' || c == '\n' || c == '\r'
  }

  function StripLeft(s: string): string {
    if s != [] && IsSpace(s[0]) then StripLeft(s[1..]) else s
  }

  function StripRight(s: string): string {
    if s != [] && IsSpace(s[|s| - 1]) then StripRight(s[..|s| - 1]) else s
  }

  function Strip(s: string): string {
    StripRight(StripLeft(s))
  }

  function IdFor(cfg: Config, text: string): string {
    cfg.idOf(Strip(text))
  }

  lemma {:induction false} StripRightEnds(s: string)
    ensures var r := StripRight(s); r == [] || !IsSpace(r[|r| - 1])
    ensures StripRight(s) == [] || StripRight(s)[0] == s[0]
  {
    if s != [] && IsSpace(s[|s| - 1]) {
      StripRightEnds(s[..|s| - 1]);
    }
  }

  lemma {:induction false} StripLeftStarts(s: string)
    ensures StripLeft(s) == [] || !IsSpace(StripLeft(s)[0])
  {
    if s != [] && IsSpace(s[0]) {
      StripLeftStarts(s[1..]);
    }
  }

  lemma StripTwice(s: string)
    ensures Strip(Strip(s)) == Strip(s)
  {
    StripLeftStarts(s);
    StripRightEnds(StripLeft(s));
  }

  predicate AllBlank(s: string) {
    forall i | 0 <= i < |s| :: s[i] in " \t\n\r"
  }

  lemma {:induction false} LeftBlanks(s: string) returns (i: nat)
    ensures i <= |s| && StripLeft(s) == s[i..] && AllBlank(s[..i])
  {
    if s != [] && IsSpace(s[0]) {
      var k := LeftBlanks(s[1..]);
      i := k + 1;
      assert s[..i] == [s[0]] + s[1..][..k];
    } else {
      i := 0;
    }
  }

  lemma {:induction false} RightBlanks(s: string) returns (j: nat)
    ensures j <= |s| && StripRight(s) == s[..j] && AllBlank(s[j..])
  {
    if s != [] && IsSpace(s[|s| - 1]) {
      var t := s[..|s| - 1];
      j := RightBlanks(t);
      assert s[j..] == t[j..] + [s[|s| - 1]];
    } else {
      j := |s|;
    }
  }

  /** Stripping takes the blanks from both ends and nothing else. */
  lemma StripTakesBlanks(s: string) returns (i: nat, j: nat)
    ensures i <= j <= |s| && Strip(s) == s[i..j]
    ensures AllBlank(s[..i]) && AllBlank(s[j..])
    ensures i < j ==> s[i] !in " \t\n\r" && s[j - 1] !in " \t\n\r"
  {
    i := LeftBlanks(s);
    var t := StripLeft(s);
    var k := RightBlanks(t);
    j := i + k;
    StripLeftStarts(s);
    StripRightEnds(t);
    assert s[i..][..k] == s[i..j] && s[i..][k..] == s[j..];
    if i < j {
      assert Strip(s)[0] == s[i] && Strip(s)[|Strip(s)| - 1] == s[j - 1];
    }
  }

  // ----- Lists and tombstones -----

  function ListOf(st: Store, uid: int): seq<Directive> {
    if uid in st.lists then st.lists[uid] else []
  }

  function TombsOf(st: Store, uid: int): seq<string> {
    if uid in st.tombs then st.tombs[uid] else []
  }

  predicate Has(ds: seq<Directive>, id: string) {
    exists i | 0 <= i < |ds| :: ds[i].id == id
  }

  function Without(ds: seq<Directive>, id: string): seq<Directive> {
    if ds == [] then []
    else Without(ds[..|ds| - 1], id) + if ds[|ds| - 1].id == id then [] else [ds[|ds| - 1]]
  }

  function Others(ids: seq<string>, id: string): seq<string> {
    if ids == [] then []
    else Others(ids[..|ids| - 1], id) + if ids[|ids| - 1] == id then [] else [ids[|ids| - 1]]
  }

  /** The newest directives up to the cap. */
  function Newest(ds: seq<Directive>): seq<Directive> {
    if |ds| > MAX_DIRECTIVES then ds[|ds| - MAX_DIRECTIVES..] else ds
  }

  function AddTomb(st: Store, uid: int, id: string): Store {
    if id in TombsOf(st, uid) then st else st.(tombs := st.tombs[uid := TombsOf(st, uid) + [id]])
  }

  function RemoveTomb(st: Store, uid: int, id: string): Store {
    if id !in TombsOf(st, uid) then st
    else
      var rest := Others(TombsOf(st, uid), id);
      if rest != [] then st.(tombs := st.tombs[uid := rest]) else st.(tombs := st.tombs - {uid})
  }

  function AddTombs(st: Store, uid: int, ds: seq<Directive>): Store {
    if ds == [] then st else AddTomb(AddTombs(st, uid, ds[..|ds| - 1]), uid, ds[|ds| - 1].id)
  }

  // ----- Operations -----

  datatype Op =
    | Append(uid: int, text: string)
    | Remove(uid: int, id: string)
    | Clear(uid: int)
    | Boot
    | ResetProfile(uid: int)

  /** Whether an append of this text changes anything. */
  predicate Accepts(cfg: Config, st: Store, uid: int, text: string) {
    Strip(text) != [] && !Has(ListOf(st, uid), IdFor(cfg, text))
  }

  function Appended(cfg: Config, st: Store, uid: int, text: string): Store {
    if !Accepts(cfg, st, uid, text) then st
    else
      var d := Directive(IdFor(cfg, text), Strip(text));
      RemoveTomb(st.(lists := st.lists[uid := Newest(ListOf(st, uid) + [d])]), uid, d.id)
  }

  function Removed(st: Store, uid: int, id: string): Store {
    if !Has(ListOf(st, uid), id) then st
    else AddTomb(st.(lists := st.lists[uid := Without(ListOf(st, uid), id)]), uid, id)
  }

  function Cleared(st: Store, uid: int): Store {
    var t := AddTombs(st, uid, ListOf(st, uid));
    t.(lists := t.lists - {uid})
  }

  function Booted(cfg: Config, st: Store): Store {
    if cfg.admin.None? || IdFor(cfg, cfg.macro) in TombsOf(st, cfg.admin.value) then st
    else Appended(cfg, st, cfg.admin.value, cfg.macro)
  }

  function After(cfg: Config, st: Store, op: Op): Store {
    match op
    case Append(uid, text) => Appended(cfg, st, uid, text)
    case Remove(uid, id) => Removed(st, uid, id)
    case Clear(uid) => Cleared(st, uid)
    case Boot => Booted(cfg, st)
    case ResetProfile(uid) => st.(lists := st.lists - {uid})
  }

  function Run(cfg: Config, st: Store, ops: seq<Op>): Store {
    if ops == [] then st else After(cfg, Run(cfg, st, ops[..|ops| - 1]), ops[|ops| - 1])
  }

  const EMPTY: Store := Store(map[], map[])

  class DirectiveStore {
    const cfg: Config
    var disk: Store

    constructor (config: Config)
      ensures cfg == config && disk == EMPTY
    {
      cfg, disk := config, EMPTY;
    }

    method AppendDirective(uid: int, text: string) returns (added: bool)
      modifies this
      ensures added == Accepts(cfg, old(disk), uid, text)
      ensures disk == Appended(cfg, old(disk), uid, text)
    {
      var t := Strip(text);
      StripTwice(text);
      if t == [] {
        return false;
      }
      var did := IdFor(cfg, t);
      var existing := ListOf(disk, uid);
      if Has(existing, did) {
        return false;
      }
      existing := existing + [Directive(did, t)];
      if |existing| > MAX_DIRECTIVES {
        existing := existing[|existing| - MAX_DIRECTIVES..];
      }
      disk := disk.(lists := disk.lists[uid := existing]);
      disk := RemoveTomb(disk, uid, did);
      added := true;
    }

    method RemoveDirective(uid: int, id: string) returns (removed: bool)
      modifies this
      ensures removed == Has(ListOf(old(disk), uid), id)
      ensures disk == Removed(old(disk), uid, id)
    {
      var existing := ListOf(disk, uid);
      var newList := Without(existing, id);
      WithoutLength(existing, id);
      if |newList| == |existing| {
        return false;
      }
      disk := disk.(lists := disk.lists[uid := newList]);
      disk := AddTomb(disk, uid, id);
      removed := true;
    }

    method ClearDirectives(uid: int) returns (count: nat)
      modifies this
      ensures count == |ListOf(old(disk), uid)|
      ensures disk == Cleared(old(disk), uid)
    {
      var existing := ListOf(disk, uid);
      count := |existing|;
      for i := 0 to |existing|
        invariant disk == AddTombs(old(disk), uid, existing[..i])
      {
        assert existing[..i + 1][..i] == existing[..i];
        disk := AddTomb(disk, uid, existing[i].id);
      }
      assert existing[..|existing|] == existing;
      disk := disk.(lists := disk.lists - {uid});
    }

    method SeedAdminDirective()
      modifies this
      ensures disk == Booted(cfg, old(disk))
    {
      if cfg.admin.None? {
        return;
      }
      var uid := cfg.admin.value;
      if IdFor(cfg, cfg.macro) in TombsOf(disk, uid) {
        return;
      }
      var added := AppendDirective(uid, cfg.macro);
    }
  }

  lemma {:induction false} WithoutLength(ds: seq<Directive>, id: string)
    ensures |Without(ds, id)| <= |ds|
    ensures |Without(ds, id)| < |ds| <==> Has(ds, id)
  {
    if ds != [] {
      var n := |ds| - 1;
      WithoutLength(ds[..n], id);
      HasSnoc(ds[..n], ds[n], id);
      assert ds == ds[..n] + [ds[n]];
    }
  }

  lemma HasSnoc(ds: seq<Directive>, d: Directive, id: string)
    ensures Has(ds + [d], id) <==> Has(ds, id) || d.id == id
  {
    if Has(ds, id) {
      var i :| 0 <= i < |ds| && ds[i].id == id;
      assert (ds + [d])[i].id == id;
    }
    assert (ds + [d])[|ds|] == d;
  }

  // ----- The invariant of every run -----

  ghost predicate DistinctIds(ds: seq<Directive>) {
    forall i, j | 0 <= i < j < |ds| :: ds[i].id != ds[j].id
  }

  /** Distinct ids, within the cap, each the hash of its text, none of them tombstoned. */
  ghost predicate SoundList(cfg: Config, ds: seq<Directive>, tombs: seq<string>) {
    && DistinctIds(ds)
    && |ds| <= MAX_DIRECTIVES
    && (forall i | 0 <= i < |ds| :: ds[i].id == IdFor(cfg, ds[i].text))
    && (forall i | 0 <= i < |ds| :: ds[i].id !in tombs)
  }

  ghost predicate Sound(cfg: Config, st: Store) {
    forall uid :: SoundList(cfg, ListOf(st, uid), TombsOf(st, uid))
  }

  lemma {:induction false} WithoutElements(ds: seq<Directive>, id: string)
    ensures forall d :: d in Without(ds, id) <==> d in ds && d.id != id
    ensures |Without(ds, id)| <= |ds|
  {
    if ds != [] {
      var n := |ds| - 1;
      WithoutElements(ds[..n], id);
      assert ds == ds[..n] + [ds[n]];
    }
  }

  lemma {:induction false} WithoutDistinct(ds: seq<Directive>, id: string)
    requires DistinctIds(ds)
    ensures DistinctIds(Without(ds, id))
  {
    if ds != [] {
      var n := |ds| - 1;
      WithoutDistinct(ds[..n], id);
      WithoutElements(ds[..n], id);
      var r := Without(ds[..n], id);
      forall i | 0 <= i < |r|
        ensures r[i].id != ds[n].id
      {
        assert r[i] in ds[..n];
      }
    }
  }

  lemma {:induction false} OthersElements(ids: seq<string>, id: string)
    ensures forall x :: x in Others(ids, id) <==> x in ids && x != id
  {
    if ids != [] {
      OthersElements(ids[..|ids| - 1], id);
      assert ids == ids[..|ids| - 1] + [ids[|ids| - 1]];
    }
  }

  lemma RemoveTombElements(st: Store, uid: int, id: string)
    ensures RemoveTomb(st, uid, id).lists == st.lists
    ensures forall x :: x in TombsOf(RemoveTomb(st, uid, id), uid) <==> x in TombsOf(st, uid) && x != id
    ensures forall u | u != uid :: TombsOf(RemoveTomb(st, uid, id), u) == TombsOf(st, u)
  {
    OthersElements(TombsOf(st, uid), id);
  }

  lemma AddTombElements(st: Store, uid: int, id: string)
    ensures AddTomb(st, uid, id).lists == st.lists
    ensures forall x :: x in TombsOf(AddTomb(st, uid, id), uid) <==> x in TombsOf(st, uid) || x == id
    ensures forall u | u != uid :: TombsOf(AddTomb(st, uid, id), u) == TombsOf(st, u)
  {
  }

  lemma {:induction false} AddTombsElements(st: Store, uid: int, ds: seq<Directive>)
    ensures AddTombs(st, uid, ds).lists == st.lists
    ensures forall x :: x in TombsOf(AddTombs(st, uid, ds), uid) <==> x in TombsOf(st, uid) || Has(ds, x)
    ensures forall u | u != uid :: TombsOf(AddTombs(st, uid, ds), u) == TombsOf(st, u)
  {
    if ds != [] {
      var n := |ds| - 1;
      AddTombsElements(st, uid, ds[..n]);
      AddTombElements(AddTombs(st, uid, ds[..n]), uid, ds[n].id);
      assert ds == ds[..n] + [ds[n]];
      forall x
        ensures Has(ds, x) <==> Has(ds[..n], x) || ds[n].id == x
      {
        HasSnoc(ds[..n], ds[n], x);
      }
    }
  }

  lemma AppendSound(cfg: Config, ds: seq<Directive>, tombs: seq<string>, tombs': seq<string>, text: string)
    requires SoundList(cfg, ds, tombs) && Strip(text) != []
    requires !Has(ds, IdFor(cfg, text))
    requires forall x :: x in tombs' <==> x in tombs && x != IdFor(cfg, text)
    ensures SoundList(cfg, Newest(ds + [Directive(IdFor(cfg, text), Strip(text))]), tombs')
  {
    StripTwice(text);
    hide Strip;
    var d := Directive(IdFor(cfg, text), Strip(text));
    forall i | 0 <= i < |ds|
      ensures ds[i].id != d.id
    {
    }
    assert DistinctIds(ds + [d]);
  }

  lemma RemoveSound(cfg: Config, ds: seq<Directive>, tombs: seq<string>, tombs': seq<string>, id: string)
    requires SoundList(cfg, ds, tombs)
    requires forall x :: x in tombs' <==> x in tombs || x == id
    ensures SoundList(cfg, Without(ds, id), tombs')
  {
    WithoutElements(ds, id);
    WithoutDistinct(ds, id);
    var r := Without(ds, id);
    forall i | 0 <= i < |r|
      ensures r[i].id == IdFor(cfg, r[i].text) && r[i].id !in tombs'
    {
      assert r[i] in r;
      assert r[i] in ds;
    }
  }

  /** The operation is for another account: a boot is for the administrator's. */
  predicate Elsewhere(cfg: Config, op: Op, uid: int) {
    if op.Boot? then cfg.admin != Some(uid) else op.uid != uid
  }

  /** An operation leaves every account but the one it names (the administrator, for a boot) as it was. */
  lemma AccountsAreIsolated(cfg: Config, st: Store, op: Op, uid: int)
    requires Elsewhere(cfg, op, uid)
    ensures ListOf(After(cfg, st, op), uid) == ListOf(st, uid)
    ensures TombsOf(After(cfg, st, op), uid) == TombsOf(st, uid)
  {
    match op
    case Append(u, text) => AppendIsolated(cfg, st, u, text, uid);
    case Remove(u, id) =>
    case Clear(u) => AddTombsElements(st, u, ListOf(st, u));
    case Boot =>
      if cfg.admin.Some? {
        AppendIsolated(cfg, st, cfg.admin.value, cfg.macro, uid);
      }
    case ResetProfile(u) =>
  }

  lemma AppendIsolated(cfg: Config, st: Store, u: int, text: string, uid: int)
    requires u != uid
    ensures ListOf(Appended(cfg, st, u, text), uid) == ListOf(st, uid)
    ensures TombsOf(Appended(cfg, st, u, text), uid) == TombsOf(st, uid)
  {
  }

  lemma AppendedAccount(cfg: Config, st: Store, uid: int, text: string)
    requires SoundList(cfg, ListOf(st, uid), TombsOf(st, uid))
    ensures var st' := Appended(cfg, st, uid, text);
            SoundList(cfg, ListOf(st', uid), TombsOf(st', uid))
  {
    if Accepts(cfg, st, uid, text) {
      var d := Directive(IdFor(cfg, text), Strip(text));
      var mid := st.(lists := st.lists[uid := Newest(ListOf(st, uid) + [d])]);
      RemoveTombElements(mid, uid, d.id);
      AppendSound(cfg, ListOf(st, uid), TombsOf(st, uid), TombsOf(RemoveTomb(mid, uid, d.id), uid), text);
    }
  }

  lemma StepKeepsSound(cfg: Config, st: Store, op: Op)
    requires Sound(cfg, st)
    ensures Sound(cfg, After(cfg, st, op))
  {
    forall uid
      ensures SoundList(cfg, ListOf(After(cfg, st, op), uid), TombsOf(After(cfg, st, op), uid))
    {
      assert SoundList(cfg, ListOf(st, uid), TombsOf(st, uid));
      if Elsewhere(cfg, op, uid) {
        AccountsAreIsolated(cfg, st, op, uid);
      } else {
        AccountKeepsSound(cfg, st, op, uid);
      }
    }
  }

  lemma AccountKeepsSound(cfg: Config, st: Store, op: Op, uid: int)
    requires SoundList(cfg, ListOf(st, uid), TombsOf(st, uid))
    requires !Elsewhere(cfg, op, uid)
    ensures SoundList(cfg, ListOf(After(cfg, st, op), uid), TombsOf(After(cfg, st, op), uid))
  {
    match op
    case Append(u, text) => AppendedAccount(cfg, st, u, text);
    case Remove(u, id) =>
      if Has(ListOf(st, u), id) {
        var mid := st.(lists := st.lists[u := Without(ListOf(st, u), id)]);
        AddTombElements(mid, u, id);
        RemoveSound(cfg, ListOf(st, u), TombsOf(st, u), TombsOf(AddTomb(mid, u, id), u), id);
      }
    case Clear(u) =>
    case Boot => AppendedAccount(cfg, st, uid, cfg.macro);
    case ResetProfile(u) =>
  }

  /** Over any interleaving of operations every account's list stays sound. */
  lemma {:induction false} RunKeepsSound(cfg: Config, ops: seq<Op>)
    ensures Sound(cfg, Run(cfg, EMPTY, ops))
  {
    if ops != [] {
      RunKeepsSound(cfg, ops[..|ops| - 1]);
      StepKeepsSound(cfg, Run(cfg, EMPTY, ops[..|ops| - 1]), ops[|ops| - 1]);
    }
  }

  // ----- Deleted stays deleted -----

  /** The only operation that brings a deleted directive back. */
  predicate Revives(cfg: Config, op: Op, uid: int, id: string) {
    op.Append? && op.uid == uid && IdFor(cfg, op.text) == id
  }

  ghost predicate Deleted(st: Store, uid: int, id: string) {
    id in TombsOf(st, uid) && !Has(ListOf(st, uid), id)
  }

  lemma AppendKeepsDeleted(cfg: Config, st: Store, uid: int, text: string, id: string)
    requires Deleted(st, uid, id) && IdFor(cfg, text) != id
    ensures Deleted(Appended(cfg, st, uid, text), uid, id)
  {
    if Accepts(cfg, st, uid, text) {
      var d := Directive(IdFor(cfg, text), Strip(text));
      var mid := st.(lists := st.lists[uid := Newest(ListOf(st, uid) + [d])]);
      RemoveTombElements(mid, uid, d.id);
      HasSnoc(ListOf(st, uid), d, id);
      assert !Has(Newest(ListOf(st, uid) + [d]), id);
    }
  }

  lemma StepKeepsDeleted(cfg: Config, st: Store, op: Op, uid: int, id: string)
    requires Deleted(st, uid, id) && !Revives(cfg, op, uid, id)
    ensures Deleted(After(cfg, st, op), uid, id)
  {
    if Elsewhere(cfg, op, uid) {
      AccountsAreIsolated(cfg, st, op, uid);
    } else if op.Append? {
      AppendKeepsDeleted(cfg, st, uid, op.text, id);
    } else if op.Remove? {
      WithoutElements(ListOf(st, uid), op.id);
      AddTombElements(st.(lists := st.lists[uid := Without(ListOf(st, uid), op.id)]), uid, op.id);
      AbsentWithout(ListOf(st, uid), op.id, id);
    } else if op.Clear? {
      AddTombsElements(st, uid, ListOf(st, uid));
    } else if op.Boot? && IdFor(cfg, cfg.macro) != id {
      AppendKeepsDeleted(cfg, st, uid, cfg.macro, id);
    }
  }

  lemma AbsentWithout(ds: seq<Directive>, other: string, id: string)
    requires !Has(ds, id) || other == id
    ensures !Has(Without(ds, other), id)
  {
  }

  lemma {:induction false} RunKeepsDeleted(cfg: Config, st: Store, ops: seq<Op>, uid: int, id: string)
    requires Deleted(st, uid, id)
    requires forall i | 0 <= i < |ops| :: !Revives(cfg, ops[i], uid, id)
    ensures Deleted(Run(cfg, st, ops), uid, id)
  {
    if ops != [] {
      RunKeepsDeleted(cfg, st, ops[..|ops| - 1], uid, id);
      StepKeepsDeleted(cfg, Run(cfg, st, ops[..|ops| - 1]), ops[|ops| - 1], uid, id);
    }
  }

  /** Removing a listed directive, or clearing the list it is on, deletes it; from then on it stays off the list
      through boots, profile resets and whatever else, until someone appends that very directive again. */
  lemma DeletedStaysDeleted(cfg: Config, st: Store, deletion: Op, ops: seq<Op>, uid: int, id: string)
    requires Has(ListOf(st, uid), id)
    requires deletion == Remove(uid, id) || deletion == Clear(uid)
    requires forall i | 0 <= i < |ops| :: !Revives(cfg, ops[i], uid, id)
    ensures Deleted(Run(cfg, After(cfg, st, deletion), ops), uid, id)
  {
    if deletion.Clear? {
      AddTombsElements(st, uid, ListOf(st, uid));
    } else {
      AddTombElements(st.(lists := st.lists[uid := Without(ListOf(st, uid), id)]), uid, id);
      AbsentWithout(ListOf(st, uid), id, id);
    }
    RunKeepsDeleted(cfg, After(cfg, st, deletion), ops, uid, id);
  }

  /** After a boot the seeded directive is on the administrator's list exactly if it was not tombstoned. */
  lemma BootRestoresUnlessDeleted(cfg: Config, ops: seq<Op>, uid: int)
    requires cfg.admin == Some(uid) && Strip(cfg.macro) != []
    ensures var id, st := IdFor(cfg, cfg.macro), Run(cfg, EMPTY, ops);
            Has(ListOf(After(cfg, st, Boot), uid), id) <==> id !in TombsOf(st, uid)
  {
    var id, st := IdFor(cfg, cfg.macro), Run(cfg, EMPTY, ops);
    RunKeepsSound(cfg, ops);
    assert SoundList(cfg, ListOf(st, uid), TombsOf(st, uid));
    if Accepts(cfg, st, uid, cfg.macro) {
      var d := Directive(id, Strip(cfg.macro));
      var mid := st.(lists := st.lists[uid := Newest(ListOf(st, uid) + [d])]);
      RemoveTombElements(mid, uid, id);
      var r := Newest(ListOf(st, uid) + [d]);
      assert r[|r| - 1] == d;
    }
  }

  /** An append that is accepted puts the directive on the list and withdraws its tombstone. */
  lemma AppendRevives(cfg: Config, st: Store, uid: int, text: string)
    requires Accepts(cfg, st, uid, text)
    ensures Has(ListOf(Appended(cfg, st, uid, text), uid), IdFor(cfg, text))
    ensures IdFor(cfg, text) !in TombsOf(Appended(cfg, st, uid, text), uid)
  {
    var d := Directive(IdFor(cfg, text), Strip(text));
    var r := Newest(ListOf(st, uid) + [d]);
    RemoveTombElements(st.(lists := st.lists[uid := r]), uid, d.id);
    assert r[|r| - 1] == d;
  }
}
