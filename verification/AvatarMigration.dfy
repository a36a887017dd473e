/** The move from stored avatar URLs to file ids and back, and the URL a file id is shown as. */
module AvatarMigration {
  import opened Text

  const FILES := "/files/"
  const DOWNLOAD := "/download"

  function DownloadURL(base: string, id: string): string {
    base + FILES + id + DOWNLOAD
  }

  /** What the down migration writes. */
  function FileURL(id: string): (u: string)
    ensures u == DownloadURL("", id)
  {
    assert "" + FILES == FILES;
    FILES + id + DOWNLOAD
  }

  /* ---- the pattern ---- */

  predicate IsAt(s: string, p: nat, word: string) {
    p + |word| <= |s| && s[p..p + |word|] == word
  }

  /** `/files/([^/]+)/download` matches at `p`, its group ending at `e`. */
  predicate MatchAt(u: string, p: nat, e: nat) {
    IsAt(u, p, FILES) && p + 7 < e <= |u| && '/' !in u[p + 7..e] && IsAt(u, e, DOWNLOAD)
  }

  function FirstSlash(s: string): (k: nat)
    ensures k <= |s| && '/' !in s[..k] && (k < |s| ==> s[k] == '/')
  {
    if s == [] || s[0] == '/' then 0 else 1 + FirstSlash(s[1..])
  }

  /** The only place a group starting after `p` can end. */
  function GroupEnd(u: string, p: nat): nat
    requires p + 7 <= |u|
  {
    p + 7 + FirstSlash(u[p + 7..])
  }

  lemma GroupEndIsUnique(u: string, p: nat, e: nat)
    requires MatchAt(u, p, e)
    ensures e == GroupEnd(u, p)
  {
    assert u[e] == DOWNLOAD[0] == '/';
    var k := FirstSlash(u[p + 7..]);
    assert u[p + 7..][..k] == u[p + 7..p + 7 + k];
    assert p + 7 + k < |u| ==> u[p + 7 + k] == '/';
  }

  /** The group of the match at the greatest position below `k`: what the greedy `^.*` in front leaves. */
  function LastGroup(u: string, k: nat): Option<string> {
    if k == 0 then None
    else
      var p := k - 1;
      if p + 7 <= |u| && MatchAt(u, p, GroupEnd(u, p)) then Some(u[p + 7..GroupEnd(u, p)]) else LastGroup(u, p)
  }

  /** `regexp_replace(url, '^.*` + the pattern + `.*$', '\1')`, when the pattern occurs. */
  function Extracted(u: string): Option<string> {
    LastGroup(u, |u|)
  }

  ghost predicate IsLastMatch(u: string, p: nat, e: nat) {
    MatchAt(u, p, e) && forall p': nat, e': nat :: MatchAt(u, p', e') ==> p' <= p
  }

  lemma {:induction false} LastGroupFinds(u: string, k: nat, p: nat, e: nat)
    requires MatchAt(u, p, e) && p < k && forall p': nat, e': nat :: p' < k && MatchAt(u, p', e') ==> p' <= p
    ensures LastGroup(u, k) == Some(u[p + 7..e])
  {
    GroupEndIsUnique(u, p, e);
    if p < k - 1 {
      LastGroupFinds(u, k - 1, p, e);
    }
  }

  lemma {:induction false} LastGroupIsAMatch(u: string, k: nat)
    requires LastGroup(u, k).Some?
    ensures exists p: nat, e: nat :: p < k && MatchAt(u, p, e) && LastGroup(u, k) == Some(u[p + 7..e])
  {
    var p := k - 1;
    if p + 7 <= |u| && MatchAt(u, p, GroupEnd(u, p)) {
    } else {
      LastGroupIsAMatch(u, p);
    }
  }

  /** The search from the right computes the pattern's declarative meaning. */
  lemma ExtractedIsTheLastMatch(u: string, p: nat, e: nat)
    requires IsLastMatch(u, p, e)
    ensures Extracted(u) == Some(u[p + 7..e])
  {
    LastGroupFinds(u, |u|, p, e);
  }

  /* ---- the URL of a file id ---- */

  predicate SlashFree(id: string) {
    '/' !in id
  }

  lemma SlashesOfDownloadURL(base: string, id: string, rest: string)
    requires SlashFree(id) && SlashFree(rest)
    ensures var u, b := DownloadURL(base, id) + rest, |base|;
            forall k :: b <= k < |u| && u[k] == '/' ==> k == b || k == b + 6 || k == b + 7 + |id|
  {
    var u, b := DownloadURL(base, id) + rest, |base|;
    var end := b + 7 + |id|;
    assert forall j :: 0 <= j < |id| ==> u[b + 7 + j] == id[j] != '/';
    assert forall j :: 0 <= j < |rest| ==> u[end + 9 + j] == rest[j] != '/';
    assert forall j :: 0 <= j < 7 ==> u[b + j] == FILES[j];
    assert forall j :: 0 <= j < 9 ==> u[end + j] == DOWNLOAD[j];
  }

  lemma DownloadURLMatchesOnlyThere(base: string, id: string, rest: string)
    requires id != "" && SlashFree(id) && SlashFree(rest)
    ensures IsLastMatch(DownloadURL(base, id) + rest, |base|, |base| + 7 + |id|)
  {
    var u, b := DownloadURL(base, id) + rest, |base|;
    assert u[b..b + 7] == FILES && u[b + 7..b + 7 + |id|] == id && u[b + 7 + |id|..b + 16 + |id|] == DOWNLOAD;
    SlashesOfDownloadURL(base, id, rest);
    forall p: nat, e: nat | MatchAt(u, p, e) ensures p <= b {
      assert u[p] == FILES[0] == '/' && u[p + 6] == FILES[6] == '/' && u[e] == DOWNLOAD[0] == '/';
    }
  }

  /** For every base URL and every non-empty id without a slash, "files" included, extraction undoes `DownloadURL`, also
      when more follows that has no slash, as a query. */
  lemma ExtractionUndoesDownloadURL(base: string, id: string, rest: string)
    requires id != "" && SlashFree(id) && SlashFree(rest)
    ensures Extracted(DownloadURL(base, id) + rest) == Some(id)
    ensures rest == "" ==> Extracted(DownloadURL(base, id)) == Some(id)
  {
    var u := DownloadURL(base, id) + rest;
    DownloadURLMatchesOnlyThere(base, id, rest);
    ExtractedIsTheLastMatch(u, |base|, |base| + 7 + |id|);
    assert u[|base| + 7..|base| + 7 + |id|] == id;
    assert DownloadURL(base, id) + "" == DownloadURL(base, id);
  }

  lemma ExtractedIsSlashFree(u: string)
    requires Extracted(u).Some?
    ensures Extracted(u).value != "" && SlashFree(Extracted(u).value)
  {
    LastGroupIsAMatch(u, |u|);
  }

  /* ---- the two migrations ---- */

  datatype Row = Row(fileId: Option<string>, url: Option<string>)

  /** SQL `trim` removes spaces only. */
  predicate SqlBlank(s: string) {
    forall i :: 0 <= i < |s| ==> s[i] == ' '
  }

  function UpRow(r: Row): Row {
    Row(if r.fileId.None? && r.url.Some? && Extracted(r.url.value).Some? then Extracted(r.url.value) else r.fileId, None)
  }

  function DownRow(r: Row): Row {
    Row(None, if r.url.None? && r.fileId.Some? && !SqlBlank(r.fileId.value)
              then Some(FileURL(r.fileId.value)) else r.url)
  }

  class ProfileTable {
    var rows: map<string, Row>

    constructor (rows: map<string, Row>)
      ensures this.rows == rows
    {
      this.rows := rows;
    }

    method Up()
      modifies this
      ensures rows == map k | k in old(rows) :: UpRow(old(rows)[k])
    {
      rows := map k | k in rows ::
        if rows[k].fileId.None? && rows[k].url.Some? && Extracted(rows[k].url.value).Some?
        then rows[k].(fileId := Extracted(rows[k].url.value)) else rows[k];
      rows := map k | k in rows :: rows[k].(url := None);
    }

    method Down()
      modifies this
      ensures rows == map k | k in old(rows) :: DownRow(old(rows)[k])
    {
      rows := map k | k in rows ::
        if rows[k].url.None? && rows[k].fileId.Some? && !SqlBlank(rows[k].fileId.value)
        then rows[k].(url := Some(FileURL(rows[k].fileId.value))) else rows[k];
      rows := map k | k in rows :: rows[k].(fileId := None);
    }
  }

  /** What up leaves: a file id that was there stays; otherwise the group of the URL's last match, if there is one. */
  lemma UpKeepsOrExtracts(r: Row)
    ensures UpRow(r).url == None
    ensures r.fileId.Some? || r.url.None? ==> UpRow(r).fileId == r.fileId
    ensures r.fileId.None? && r.url.Some? ==>
              && (forall p: nat, e: nat :: IsLastMatch(r.url.value, p, e) ==>
                    UpRow(r).fileId == Some(r.url.value[p + 7..e]))
              && (UpRow(r).fileId.None? <==> forall p: nat, e: nat :: !MatchAt(r.url.value, p, e))
  {
    if r.fileId.None? && r.url.Some? {
      var u := r.url.value;
      forall p: nat, e: nat | IsLastMatch(u, p, e) ensures Extracted(u) == Some(u[p + 7..e]) {
        ExtractedIsTheLastMatch(u, p, e);
      }
      if Extracted(u).Some? {
        LastGroupIsAMatch(u, |u|);
      } else {
        forall p: nat, e: nat | MatchAt(u, p, e) ensures false {
          NoGroupNoMatch(u, |u|, p, e);
        }
      }
    }
  }

  lemma {:induction false} NoGroupNoMatch(u: string, k: nat, p: nat, e: nat)
    requires MatchAt(u, p, e) && p < k
    ensures LastGroup(u, k).Some?
  {
    GroupEndIsUnique(u, p, e);
    if p < k - 1 { NoGroupNoMatch(u, k - 1, p, e); }
  }

  /** What down leaves: a URL that was there stays; otherwise the path of the file id, unless that is missing or is made of
      spaces only. */
  lemma DownKeepsOrBuilds(r: Row)
    ensures DownRow(r).fileId == None
    ensures r.url.Some? ==> DownRow(r).url == r.url
    ensures r.url.None? ==>
              DownRow(r).url ==
              if r.fileId.None? || (forall i :: 0 <= i < |r.fileId.value| ==> r.fileId.value[i] == ' ') then None
              else Some("/files/" + r.fileId.value + "/download")
  {
    if r.fileId.Some? {
      assert "" + FILES == FILES;
    }
  }

  /** The texts themselves. */
  lemma LiteralURLs()
    ensures DownloadURL("https://f", "42") == "https://f/files/42/download"
    ensures Extracted("https://f/files/42/download?x=1") == Some("42")
    ensures Extracted("/files/1/download/files/2/download") == Some("2")
    ensures Extracted("/files//download") == None
  {
    ExtractionUndoesDownloadURL("https://f", "42", "?x=1");
    assert DownloadURL("https://f", "42") + "?x=1" == "https://f/files/42/download?x=1";
    ExtractionUndoesDownloadURL("/files/1/download", "2", "");
    assert DownloadURL("/files/1/download", "2") == "/files/1/download/files/2/download";
    NoIdNoMatch();
  }

  lemma MatchHasAnId(u: string, p: nat, e: nat)
    requires MatchAt(u, p, e)
    ensures u[p] == '/' && u[p + 6] == '/' && u[p + 7] != '/'
  {
    assert u[p] == FILES[0] && u[p + 6] == FILES[6];
    assert u[p + 7] in u[p + 7..e];
  }

  lemma NoIdNoMatch()
    ensures Extracted("/files//download") == None
  {
    var u := "/files//download";
    forall p: nat, e: nat | MatchAt(u, p, e) ensures false {
      MatchHasAnId(u, p, e);
    }
    if Extracted(u).Some? {
      LastGroupIsAMatch(u, |u|);
      assert false;
    }
  }

  /** Down and up again restores a row exactly when its file id is NULL or is neither blank nor contains a slash. */
  lemma DownThenUpRestores(r: Row)
    requires r.url == None
    ensures UpRow(DownRow(r)) == r <==> r.fileId.None? || (!SqlBlank(r.fileId.value) && SlashFree(r.fileId.value))
  {
    if r.fileId.Some? && !SqlBlank(r.fileId.value) {
      var id := r.fileId.value;
      if SlashFree(id) {
        ExtractionUndoesDownloadURL("", id, "");
      } else if Extracted(DownloadURL("", id)).Some? {
        ExtractedIsSlashFree(DownloadURL("", id));
      }
    }
  }

  /** A URL of the shape the service itself produces without a base. */
  ghost predicate Canonical(u: string) {
    exists id :: !SqlBlank(id) && SlashFree(id) && u == DownloadURL("", id)
  }

  /** Up and down again restores a row exactly when its URL is NULL or canonical; other URLs lose their base, their
      query, or everything. */
  lemma UpThenDownRestores(r: Row)
    requires r.fileId == None
    ensures DownRow(UpRow(r)) == r <==> r.url.None? || Canonical(r.url.value)
  {
    if r.url.Some? {
      var u := r.url.value;
      if Extracted(u).Some? {
        ExtractedIsSlashFree(u);
      }
      if Canonical(u) {
        var id :| !SqlBlank(id) && SlashFree(id) && u == DownloadURL("", id);
        ExtractionUndoesDownloadURL("", id, "");
      }
    }
  }

  /** The same for the whole table: it comes back exactly when every file id can. */
  lemma TableDownThenUp(rows: map<string, Row>)
    requires forall k :: k in rows ==> rows[k].url == None
    ensures var down := map k | k in rows :: DownRow(rows[k]);
            var up := map k | k in down :: UpRow(down[k]);
            up == rows <==>
              forall k :: k in rows ==>
                var f := rows[k].fileId;
                f.None? || (!SqlBlank(f.value) && SlashFree(f.value))
  {
    var down := map k | k in rows :: DownRow(rows[k]);
    var up := map k | k in down :: UpRow(down[k]);
    assert up.Keys == rows.Keys;
    forall k | k in rows
      ensures up[k] == rows[k] <==>
              rows[k].fileId.None? || (!SqlBlank(rows[k].fileId.value) && SlashFree(rows[k].fileId.value))
    {
      DownThenUpRestores(rows[k]);
    }
  }
}
