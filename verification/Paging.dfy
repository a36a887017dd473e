/** The administrative user list: its paging arithmetic in 64-bit integers, the rows of a page, and their responses. */
module Paging {
  import opened Text
  import opened Domain
  import AvatarMigration
  import MaskedEmail

  const MAX_INT := 0x7FFF_FFFF_FFFF_FFFF
  const DEFAULT_PER_PAGE := 50
  const MIN_PER_PAGE := 10
  const MAX_PER_PAGE := 100

  type Int64 = x: int | -MAX_INT - 1 <= x <= MAX_INT

  /** A query parameter: missing or blank, not an integer of 64 bits, or an integer. */
  datatype Param = Absent | Malformed | Number(value: Int64)

  datatype UserResponse = UserResponse(id: Id, email: string, status: Status, isActive: bool,
                                       displayName: Option<string>, avatarFileId: Option<string>, avatarUrl: Option<string>)

  datatype ListReply = InvalidPage | InvalidPer | ListFailed | Listing(totalCount: int, users: seq<UserResponse>)

  /* ---- the arithmetic ---- */

  /** A product as a signed 64-bit register keeps it. */
  function Wrapped(x: int): (r: Int64)
    ensures (r - x) % (2 * (MAX_INT + 1)) == 0
    ensures -MAX_INT - 1 <= x <= MAX_INT ==> r == x
  {
    var m := 2 * (MAX_INT + 1);
    var r := x % m;
    assert x == x / m * m + r;
    if r <= MAX_INT then r
    else
      assert r - m - x == -(x / m + 1) * m;
      r - m
  }

  function Min(a: int, b: int): int {
    if a <= b then a else b
  }

  /** `OFFSET offset LIMIT limit`; an offset that is not positive is no offset. */
  function Window<T>(rows: seq<T>, offset: int, limit: nat): seq<T> {
    var from := Min(if offset > 0 then offset else 0, |rows|);
    rows[from..Min(from + limit, |rows|)]
  }

  /** The rows page `page` shows. */
  function Page<T>(rows: seq<T>, page: int, per: nat): seq<T> {
    Window(rows, Wrapped((page - 1) * per), per)
  }

  predicate PerIsValid(per: int) {
    MIN_PER_PAGE <= per <= MAX_PER_PAGE
  }

  /** The register holds the true offset for exactly the pages up to this bound. */
  predicate Representable(page: int, per: int)
    requires per > 0
  {
    page - 1 <= MAX_INT / per
  }

  lemma Scale(a: int, b: int, c: int)
    requires a <= b && c >= 0
    ensures a * c <= b * c
  {
  }

  /** Whole pages before a row, and rows before a whole page. */
  lemma WholePages(k: int, n: int, per: int)
    requires per > 0
    ensures k <= n / per <==> k * per <= n
  {
    var q := n / per;
    assert q * per <= n < q * per + per;
    if k <= q {
      Scale(k, q, per);
    } else {
      Scale(q + 1, k, per);
      assert (q + 1) * per == q * per + per;
    }
  }

  lemma OffsetIsExact(page: Int64, per: int)
    requires page >= 1 && PerIsValid(per)
    ensures Wrapped((page - 1) * per) == (page - 1) * per <==> Representable(page, per)
  {
    WholePages(page - 1, MAX_INT, per);
    Scale(0, page - 1, per);
  }

  /* ---- pages partition the list ---- */

  /** The number of rows before page `page + 1`. */
  function Before(page: int, per: int): int {
    page * per
  }

  lemma NextPage(page: int, per: int)
    ensures Before(page, per) == Before(page - 1, per) + per
  {
  }

  function Slice<T>(rows: seq<T>, from: nat, limit: nat): seq<T> {
    rows[Min(from, |rows|)..Min(from + limit, |rows|)]
  }

  lemma PageIsASlice<T>(rows: seq<T>, page: Int64, per: int)
    requires page >= 1 && PerIsValid(per) && Representable(page, per)
    ensures Before(page - 1, per) >= 0
    ensures Page(rows, page, per) == Slice(rows, Before(page - 1, per), per)
  {
    OffsetIsExact(page, per);
    Scale(0, page - 1, per);
    WindowIsASlice(rows, (page - 1) * per, per);
  }

  lemma WindowIsASlice<T>(rows: seq<T>, from: nat, limit: nat)
    ensures Window(rows, from, limit) == Slice(rows, from, limit)
  {
  }

  function PageCount(n: nat, per: int): nat
    requires per > 0
  {
    (n + per - 1) / per
  }

  lemma PageCountCovers(n: nat, per: int)
    requires PerIsValid(per) && n <= MAX_INT
    ensures Before(PageCount(n, per), per) >= n
    ensures PageCount(n, per) <= MAX_INT && Representable(PageCount(n, per), per)
  {
    var c := PageCount(n, per);
    WholePages(c, n + per - 1, per);
    WholePages(c + 1, n + per - 1, per);
    assert (c + 1) * per == c * per + per && (c - 1) * per == c * per - per;
    WholePages(c - 1, MAX_INT, per);
    WholePages(MAX_INT + 1, n + per - 1, per);
  }

  function FirstPages<T>(rows: seq<T>, per: nat, m: nat): seq<T> {
    if m == 0 then [] else FirstPages(rows, per, m - 1) + Page(rows, m, per)
  }

  lemma {:induction false} FirstPagesAreAPrefix<T>(rows: seq<T>, per: int, m: nat)
    requires PerIsValid(per) && m <= MAX_INT && Representable(m, per)
    ensures Before(m, per) >= 0
    ensures FirstPages(rows, per, m) == Slice(rows, 0, Before(m, per))
  {
    if m > 0 {
      FirstPagesAreAPrefix(rows, per, m - 1);
      PageIsASlice(rows, m, per);
      NextPage(m, per);
      SlicesMeet(rows, Before(m - 1, per), per);
    }
  }

  lemma SlicesMeet<T>(rows: seq<T>, from: nat, limit: nat)
    ensures Slice(rows, 0, from) + Slice(rows, from, limit) == Slice(rows, 0, from + limit)
  {
  }

  /** Pages 1 to the page count, one after the other, are the whole list, and every later page whose offset the register
      holds is empty. */
  lemma PagesPartitionTheList<T>(rows: seq<T>, per: int)
    requires PerIsValid(per) && |rows| <= MAX_INT
    ensures FirstPages(rows, per, PageCount(|rows|, per)) == rows
    ensures forall page: Int64 :: page > PageCount(|rows|, per) && Representable(page, per) ==> Page(rows, page, per) == []
  {
    var c := PageCount(|rows|, per);
    PageCountCovers(|rows|, per);
    FirstPagesAreAPrefix(rows, per, c);
    forall page: Int64 | page > c && Representable(page, per) ensures Page(rows, page, per) == [] {
      LaterPageIsEmpty(rows, page, per, c);
    }
  }

  lemma LaterPageIsEmpty<T>(rows: seq<T>, page: Int64, per: int, c: nat)
    requires PerIsValid(per) && page > c && Representable(page, per) && Before(c, per) >= |rows|
    ensures Page(rows, page, per) == []
  {
    PageIsASlice(rows, page, per);
    Scale(c, page - 1, per);
  }

  /** A row is on one page only. */
  lemma RowIsOnOnePage<T(!new)>(rows: seq<T>, k: nat, page: Int64, per: int)
    requires k < |rows| && forall i, j :: 0 <= i < j < |rows| ==> rows[i] != rows[j]
    requires page >= 1 && PerIsValid(per) && Representable(page, per)
    ensures rows[k] in Page(rows, page, per) <==> page == k / per + 1
  {
    PageIsASlice(rows, page, per);
    NextPage(page, per);
    RowOfSlice(rows, k, Before(page - 1, per), per);
    WholePages(page - 1, k, per);
    WholePages(page, k, per);
  }

  lemma RowOfSlice<T(!new)>(rows: seq<T>, k: nat, from: nat, limit: nat)
    requires k < |rows| && forall i, j :: 0 <= i < j < |rows| ==> rows[i] != rows[j]
    ensures rows[k] in Slice(rows, from, limit) <==> from <= k < from + limit
  {
    if from <= k < from + limit {
      assert Slice(rows, from, limit)[k - from] == rows[k];
    }
  }

  lemma WindowIsEmpty<T>(rows: seq<T>, offset: int, limit: nat)
    requires limit > 0
    ensures Window(rows, offset, limit) == [] <==> rows == [] || offset >= |rows|
  {
  }

  /** A page shows the rows it should, exactly when there are none, or the register holds its offset, or wraps it to a
      value that is no smaller than the length of the list. */
  lemma PageIsRightExactly<T>(rows: seq<T>, page: Int64, per: int)
    requires page >= 1 && PerIsValid(per) && |rows| <= MAX_INT
    ensures Before(page - 1, per) >= 0
    ensures Page(rows, page, per) == Slice(rows, Before(page - 1, per), per)
            <==> rows == [] || Representable(page, per) || Wrapped((page - 1) * per) >= |rows|
  {
    Scale(0, page - 1, per);
    WholePages(page - 1, MAX_INT, per);
    if Representable(page, per) {
      PageIsASlice(rows, page, per);
    } else {
      WindowIsEmpty(rows, Wrapped((page - 1) * per), per);
      assert Slice(rows, Before(page - 1, per), per) == [];
    }
  }

  /** Beyond the bound the product wraps: page 2^60 + 1 of sixteen rows shows the first page again. */
  lemma WrappedPageRepeatsTheFirst<T>(rows: seq<T>)
    ensures var page := 0x1000_0000_0000_0001;
            PerIsValid(16) && !Representable(page, 16) && Page(rows, page, 16) == Page(rows, 1, 16)
  {
    assert Wrapped(0x1_0000_0000_0000_0000) == 0;
  }

  /* ---- the request ---- */

  function Shown(v: UserView, storage: Option<string>): UserResponse {
    var fileId := if v.profile.Some? then v.profile.value.avatarFileId else None;
    UserResponse(v.row.id, MaskedEmail.MaskForAdmin(v.row.email), StatusOrDefault(v.row), v.row.isActive,
                 if v.profile.Some? then v.profile.value.displayName else None, fileId,
                 if storage.Some? && fileId.Some? && TrimSpace(fileId.value) != ""
                 then Some(AvatarMigration.DownloadURL(storage.value, TrimSpace(fileId.value))) else None)
  }

  /** A response presents a user: every field, said of the stored rows. */
  ghost predicate Presents(r: UserResponse, v: UserView, storage: Option<string>) {
    && r.id == v.row.id && r.isActive == v.row.isActive
    && r.email == MaskedEmail.MaskForAdmin(v.row.email)
    && r.status == (if !v.row.status.OtherStatus? then v.row.status else if v.row.isActive then NewUser else Inactive)
    && (v.profile.None? ==> r.displayName == None && r.avatarFileId == None && r.avatarUrl == None)
    && (v.profile.Some? ==>
          && r.displayName == v.profile.value.displayName
          && r.avatarFileId == v.profile.value.avatarFileId
          && r.avatarUrl ==
             if storage.Some? && r.avatarFileId.Some? && !Blank(r.avatarFileId.value)
             then Some(storage.value + "/files/" + TrimSpace(r.avatarFileId.value) + "/download") else None)
  }

  lemma ShownPresents(v: UserView, storage: Option<string>)
    ensures Presents(Shown(v, storage), v, storage)
  {
    if v.profile.Some? && v.profile.value.avatarFileId.Some? {
      BlankIsTrimmedAway(v.profile.value.avatarFileId.value);
    }
  }

  /** The email of a response never shows more than its mask does. */
  lemma ResponseMasksTheEmail(r: UserResponse, v: UserView, storage: Option<string>, local: string, domain: string)
    requires Presents(r, v, storage)
    requires TrimSpace(v.row.email) == local + "@" + domain && '@' !in local && '@' !in domain && local != "" && domain != ""
    ensures MaskedEmail.Name(domain) != ""
    ensures r.email == [local[0]] + "****@***" + [MaskedEmail.Name(domain)[|MaskedEmail.Name(domain)| - 1]]
                       + MaskedEmail.Suffix(domain)
  {
    MaskedEmail.MaskShowsThreeThings(v.row.email, local, domain);
  }

  /** The avatar URL of a response leads back to the stored file id. */
  lemma ShownAvatarURLNamesTheFile(v: UserView, storage: Option<string>)
    requires v.profile.Some? && v.profile.value.avatarFileId.Some?
    requires Shown(v, storage).avatarUrl.Some? && AvatarMigration.SlashFree(v.profile.value.avatarFileId.value)
    ensures AvatarMigration.Extracted(Shown(v, storage).avatarUrl.value) ==
            Some(TrimSpace(v.profile.value.avatarFileId.value))
  {
    var id := v.profile.value.avatarFileId.value;
    TrimSpaceSubset(id);
    AvatarMigration.ExtractionUndoesDownloadURL(storage.value, TrimSpace(id), "");
  }

  class AdminHandler {
    const storage: Option<string>  // base URL of the file storage, when one is configured

    constructor (storage: Option<string>)
      ensures this.storage == storage
    {
      this.storage := storage;
    }

    method NewUserResponse(user: User) returns (r: UserResponse)
      requires user.profile != null ==> user.profile.avatarUrl == None
      modifies if user.profile == null then {} else {user.profile}`avatarUrl
      ensures r == Shown(old(user.View()), storage) && Presents(r, old(user.View()), storage)
    {
      ShownPresents(user.View(), storage);
      var profile := user.profile;
      if profile != null && storage.Some? {
        UserProfile.WithAvatarURL(profile, Some(id => AvatarMigration.DownloadURL(storage.value, id)));
      }
      r := UserResponse(user.id, MaskedEmail.MaskForAdmin(user.email), StatusOrDefault(user.Row()), user.isActive,
                        if profile == null then None else profile.displayName,
                        if profile == null then None else profile.avatarFileId,
                        if profile == null then None else profile.avatarUrl);
    }

    method Responses(found: seq<UserView>) returns (items: seq<UserResponse>)
      ensures |items| == |found| && forall k :: 0 <= k < |found| ==> Presents(items[k], found[k], storage)
    {
      items := [];
      for idx := 0 to |found|
        invariant |items| == idx
        invariant forall k :: 0 <= k < idx ==> Presents(items[k], found[k], storage)
      {
        var profile: UserProfile? := null;
        if found[idx].profile.Some? {
          profile := new UserProfile(found[idx].profile.value);
        }
        var user := new User(found[idx].row, profile);
        var item := NewUserResponse(user);
        items := items + [item];
      }
    }

    /** `rows` is what the database would list, newest user first; `fails` says whether the listing call fails. */
    method ListUsers(page: Param, per: Param, rows: seq<UserView>, fails: bool) returns (reply: ListReply)
      ensures reply.InvalidPage? <==> page.Malformed? || (page.Number? && page.value < 1)
      ensures reply.InvalidPer? <==>
                !reply.InvalidPage? && (per.Malformed? || (per.Number? && !(10 <= per.value <= 100)))
      ensures reply.ListFailed? <==> !reply.InvalidPage? && !reply.InvalidPer? && fails
      ensures reply.Listing? ==>
                var shown := Page(rows, if page.Number? then page.value else 1,
                                  if per.Number? then per.value else 50);
                reply.totalCount == |rows| && |reply.users| == |shown|
                && forall k :: 0 <= k < |shown| ==> Presents(reply.users[k], shown[k], storage)
    {
      var p: Int64 := 1;
      if page != Absent {
        if page.Malformed? || page.value < 1 {
          return InvalidPage;
        }
        p := page.value;
      }
      var size: int := DEFAULT_PER_PAGE;
      if per != Absent {
        if per.Malformed? || per.value < MIN_PER_PAGE || per.value > MAX_PER_PAGE {
          return InvalidPer;
        }
        size := per.value;
      }
      var offset := Wrapped((p - 1) * size);
      if fails {
        return ListFailed;
      }
      var items := Responses(Window(rows, offset, size));
      return Listing(|rows|, items);
    }
  }
}
