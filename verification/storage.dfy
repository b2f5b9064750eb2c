/** The list logic of the password history and the premium-status decision
    of the storage service, over an in-memory store: an absent key is `None`,
    and reading the history of an absent key gives the empty list. */
module Storage {
  import opened Wrappers
  import opened Bounds

  /** A saved password; only `id` is read by the list logic. Times are
      milliseconds since the epoch. */
  datatype PasswordEntry = PasswordEntry(id: string, password: string, timestamp: int)

  /** The stored user record; only the premium fields are read here. */
  datatype User = User(id: string, isPremium: bool, premiumExpiresAt: Option<int>)

  /** Where `splice(start)` starts cutting a list of length `n`: a start past
      the end is the end, and a negative start counts from the end, but not
      past the beginning. */
  function SpliceStart(n: nat, start: int): (k: nat)
    ensures k <= n
    ensures 0 <= start ==> k == Min(start, n)
    ensures start < 0 ==> k == Max(n + start, 0)
  {
    if start >= n then n else if start >= 0 then start else Max(n + start, 0)
  }

  /** The history after `addPasswordToHistory(e, maxCount)`: `e` first, then
      the old entries in order, cut to `maxCount` entries (for a negative bound,
      to that many fewer than the new length). */
  function BoundedPrepend(h: seq<PasswordEntry>, e: PasswordEntry, maxCount: int): (r: seq<PasswordEntry>)
    ensures maxCount >= 0 ==> |r| == Min(|h| + 1, maxCount)
    ensures maxCount < 0 ==> |r| == Max(|h| + 1 + maxCount, 0)
    ensures |r| > 0 ==> r[0] == e && r[1..] == h[..|r| - 1]
  {
    var history := [e] + h;
    if |history| > maxCount then history[..SpliceStart(|history|, maxCount)] else history
  }

  /** The history without the entries whose id is `id`. */
  function WithoutId(h: seq<PasswordEntry>, id: string): (r: seq<PasswordEntry>)
    ensures forall e :: e in r ==> e.id != id
    ensures |r| <= |h|
  {
    if h == [] then []
    else
      assert h == [h[0]] + h[1..];
      (if h[0].id == id then [] else [h[0]]) + WithoutId(h[1..], id)
  }

  /** Every entry with another id keeps its number of occurrences. */
  lemma {:induction false} WithoutIdCounts(h: seq<PasswordEntry>, id: string, e: PasswordEntry)
    ensures multiset(WithoutId(h, id))[e] == if e.id == id then 0 else multiset(h)[e]
  {
    if h != [] {
      WithoutIdCounts(h[1..], id, e);
      assert h == [h[0]] + h[1..];
    }
  }

  /** One step of the removal on a list with head `x`. */
  lemma WithoutIdCons(x: PasswordEntry, t: seq<PasswordEntry>, id: string)
    ensures WithoutId([x] + t, id) == (if x.id == id then [] else [x]) + WithoutId(t, id)
  {
    assert ([x] + t)[1..] == t;
  }

  /** Removal keeps the relative order: it commutes with concatenation. */
  lemma {:induction false} WithoutIdAppend(a: seq<PasswordEntry>, b: seq<PasswordEntry>, id: string)
    ensures WithoutId(a + b, id) == WithoutId(a, id) + WithoutId(b, id)
  {
    if a == [] {
      assert a + b == b;
    } else {
      var x, t := a[0], a[1..];
      var head := if x.id == id then [] else [x];
      calc {
        WithoutId(a + b, id);
        { assert a + b == [x] + (t + b); }
        WithoutId([x] + (t + b), id);
        { WithoutIdCons(x, t + b, id); }
        head + WithoutId(t + b, id);
        { WithoutIdAppend(t, b, id); }
        head + (WithoutId(t, id) + WithoutId(b, id));
        (head + WithoutId(t, id)) + WithoutId(b, id);
        { WithoutIdCons(x, t, id); assert a == [x] + t; }
        WithoutId(a, id) + WithoutId(b, id);
      }
    }
  }

  /** A history without the id is left as it is. */
  lemma {:induction false} WithoutAbsentId(h: seq<PasswordEntry>, id: string)
    requires forall e :: e in h ==> e.id != id
    ensures WithoutId(h, id) == h
  {
    if h != [] {
      assert h[0] in h;
      assert forall e :: e in h[1..] ==> e in h;
      WithoutAbsentId(h[1..], id);
      assert h == [h[0]] + h[1..];
    }
  }

  /** Removing an id twice is removing it once. */
  lemma WithoutIdIdempotent(h: seq<PasswordEntry>, id: string)
    ensures WithoutId(WithoutId(h, id), id) == WithoutId(h, id)
  {
    WithoutAbsentId(WithoutId(h, id), id);
  }

  /** The decision of `getPremiumStatus` at time `now`. */
  function PremiumStatus(user: Option<User>, now: int): (r: bool)
    ensures r ==> user.Some? && user.value.isPremium
    ensures user.Some? && user.value.isPremium && user.value.premiumExpiresAt.None? ==> r
    ensures user.Some? && user.value.premiumExpiresAt.Some? ==>
      (r <==> user.value.isPremium && now < user.value.premiumExpiresAt.value)
  {
    match user
    case None => false
    case Some(u) =>
      if u.isPremium then
        match u.premiumExpiresAt
        case Some(expiry) => now < expiry
        case None => true
      else false
  }

  /** Premium that has expired stays expired. */
  lemma PremiumExpiryIsFinal(user: Option<User>, t1: int, t2: int)
    requires t1 <= t2 && !PremiumStatus(user, t1)
    ensures !PremiumStatus(user, t2)
  {
  }

  /** The user record after `setPremiumStatus(isPremium, expiresAt)`. */
  function WithPremium(user: Option<User>, isPremium: bool, expiresAt: Option<int>): (r: Option<User>)
    ensures r.None? <==> user.None?
    ensures r.Some? ==> r.value == user.value.(isPremium := isPremium, premiumExpiresAt := expiresAt)
  {
    match user
    case None => None
    case Some(u) => Some(u.(isPremium := isPremium, premiumExpiresAt := expiresAt))
  }

  /** Reading the status after setting it gives what was set. */
  lemma SetThenGetPremium(user: Option<User>, isPremium: bool, expiresAt: Option<int>, now: int)
    ensures PremiumStatus(WithPremium(user, isPremium, expiresAt), now)
      == (user.Some? && isPremium && (expiresAt.None? || now < expiresAt.value))
  {
  }

  /** The persisted state of the storage service. */
  class StorageService {
    var historyData: Option<seq<PasswordEntry>>
    var userData: Option<User>

    constructor ()
      ensures historyData == None && userData == None
    {
      historyData, userData := None, None;
    }

    /** What reading the history key gives: the empty list when it is absent. */
    function History(): seq<PasswordEntry>
      reads this
    {
      match historyData
      case None => []
      case Some(h) => h
    }

    method GetPasswordHistory() returns (h: seq<PasswordEntry>)
      ensures h == History()
    {
      h := History();
    }

    method SavePasswordHistory(h: seq<PasswordEntry>)
      modifies this
      ensures historyData == Some(h) && History() == h
      ensures userData == old(userData)
    {
      historyData := Some(h);
    }

    /** `addPasswordToHistory`: unshift, then cut to `maxCount` entries. */
    method AddPasswordToHistory(entry: PasswordEntry, maxCount: int := 10)
      modifies this
      ensures History() == BoundedPrepend(old(History()), entry, maxCount)
      ensures userData == old(userData)
    {
      var history := GetPasswordHistory();
      history := [entry] + history;
      if |history| > maxCount {
        history := history[..SpliceStart(|history|, maxCount)];
      }
      SavePasswordHistory(history);
    }

    /** `removePasswordFromHistory`: keeps the entries with another id. */
    method RemovePasswordFromHistory(id: string)
      modifies this
      ensures History() == WithoutId(old(History()), id)
      ensures userData == old(userData)
    {
      var history := GetPasswordHistory();
      var filtered := WithoutId(history, id);
      SavePasswordHistory(filtered);
    }

    /** `clearPasswordHistory`: removes the key. */
    method ClearPasswordHistory()
      modifies this
      ensures historyData == None && History() == []
      ensures userData == old(userData)
    {
      historyData := None;
    }

    /** `getPremiumStatus`, with the current time passed in. */
    method GetPremiumStatus(now: int) returns (premium: bool)
      ensures premium == PremiumStatus(userData, now)
    {
      match userData
      case None =>
        premium := false;
      case Some(user) =>
        if user.isPremium {
          if user.premiumExpiresAt.Some? {
            premium := now < user.premiumExpiresAt.value;
          } else {
            premium := true;
          }
        } else {
          premium := false;
        }
    }

    /** `setPremiumStatus`: with no user record nothing changes; otherwise
        exactly the two premium fields are set. */
    method SetPremiumStatus(isPremium: bool, expiresAt: Option<int>)
      modifies this
      ensures userData == WithPremium(old(userData), isPremium, expiresAt)
      ensures historyData == old(historyData)
    {
      match userData
      case None =>
      case Some(user) =>
        userData := Some(user.(isPremium := isPremium, premiumExpiresAt := expiresAt));
    }
  }
}
