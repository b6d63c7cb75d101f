/**
 The webpage repository: each method is one SQL transaction under owner admission and a row
 lock, so it is one atomic step. `cipherUp` says whether the encryption service answered; a
 transaction that needs it and gets no answer rolls back.
 */
module WebpageRepositories {
  import opened Common
  import opened SyncModel

  /** One attempt of `claim`: a listed row, its clock reading, and what the attempt meets. */
  datatype Candidate = Candidate(id: DocId, owner: Owner, now: Time, locked: bool)

  class WebpageRepository {
    var pages: map<DocId, Page>
    var erased: set<Owner>

    function State(): Db
      reads this
    {
      Db(pages, erased)
    }

    constructor ()
      ensures State() == EMPTY_DB
    {
      pages := map[];
      erased := {};
    }

    method Create(id: DocId, user: Owner, key: string, urls: seq<Url>, autoSync: bool, now: Time,
                  cipherUp: bool)
      returns (r: Reply<Page>)
      modifies this
      ensures State() == if cipherUp then Step(old(State()), Op.Create(id, user, key, urls, autoSync, now))
                         else old(State())
      ensures r.Answer? <==> cipherUp && Commits(old(State()), Op.Create(id, user, key, urls, autoSync, now))
      ensures r.Answer? ==> id in pages && r.value == pages[id]
      ensures r.Duplicate? ==> KeyTaken(old(State()), user, key)
      ensures r.Answer? <==>
        && cipherUp && 1 <= |urls| <= 100 && user !in old(erased) && id !in old(pages)
        && forall d :: d in old(pages) && old(pages)[d].owner == user ==> old(pages)[d].key != key
      ensures r.Answer? ==>
        && FirstAppearances(urls, r.value.urls)
        && r.value == Page(user, key, r.value.urls, autoSync, Queued, Initial, "", None, [],
                           None, None, None, None, None, None, None, Processing, None, now)
        && pages == old(pages)[id := r.value] && erased == old(erased)
      ensures !r.Answer? ==> pages == old(pages) && erased == old(erased)
      ensures r.Invalid? <==> !(1 <= |urls| <= 100)
      ensures r.OwnerErased? <==> 1 <= |urls| <= 100 && user in old(erased)
      ensures r.Unavailable? <==> 1 <= |urls| <= 100 && user !in old(erased) && !cipherUp
    {
      DistinctKeepsOrder(urls);
      if |urls| < 1 || |urls| > MAX_URLS {
        return Invalid;
      }
      if user in erased {
        return OwnerErased;
      }
      if !cipherUp {
        return Unavailable;
      }
      if exists d :: d in pages && pages[d].owner == user && pages[d].key == key {
        return Duplicate;
      }
      if id in pages {
        return Conflict;
      }
      var page := Page(user, key, Distinct(urls), autoSync, Queued, Initial, "", None, [],
                       None, None, None, None, None, None, None, Processing, None, now);
      pages := pages[id := page];
      return Answer(page);
    }

    /** The answer is decrypted after the commit, so an accepted request can still raise. */
    method Enqueue(id: DocId, user: Owner, now: Time, cipherUp: bool) returns (r: Reply<Page>)
      modifies this
      ensures State() == Step(old(State()), Op.Enqueue(id, user, now))
      ensures r.Answer? <==> cipherUp && Commits(old(State()), Op.Enqueue(id, user, now))
      ensures r.Unavailable? <==> !cipherUp && Commits(old(State()), Op.Enqueue(id, user, now))
      ensures r.Answer? ==> id in pages && r.value == pages[id]
      ensures r.OwnerErased? <==> user in old(erased)
      ensures r.NotFound? <==> user !in old(erased) && !Has(old(State()), id, user)
      ensures r.Conflict? <==>
        && user !in old(erased) && id in old(pages) && old(pages)[id].owner == user
        && (old(pages)[id].sync == Queued || old(pages)[id].sync == Running)
      ensures r.Answer? || r.OwnerErased? || r.NotFound? || r.Conflict? || r.Unavailable?
      ensures erased == old(erased)
      ensures !r.Answer? && !r.Unavailable? ==> pages == old(pages)
      ensures r.Answer? || r.Unavailable? ==>
        && id in old(pages) && var p := old(pages)[id];
           pages == old(pages)[id := p.(
             sync := Queued, reason := Manual, syncError := None, lastSyncChanged := None,
             claimToken := None, claimedAt := None, updatedAt := now,
             status := if p.contentHash == None then Processing else p.status,
             error := if p.contentHash == None then None else p.error)]
    {
      if user in erased {
        return OwnerErased;
      }
      if id !in pages || pages[id].owner != user {
        return NotFound;
      }
      var page := pages[id];
      if page.sync == Queued || page.sync == Running {
        return Conflict;
      }
      page := page.(sync := Queued);
      page := page.(reason := Manual);
      page := page.(syncError := None);
      page := page.(lastSyncChanged := None);
      page := page.(claimToken := None);
      page := page.(claimedAt := None);
      if page.contentHash == None {
        page := page.(status := Processing);
        page := page.(error := None);
      }
      page := page.(updatedAt := now);
      pages := pages[id := page];
      return if cipherUp then Answer(page) else Unavailable;
    }

    method SetAutoSync(id: DocId, user: Owner, autoSync: bool, now: Time, cipherUp: bool) returns (r: Reply<Page>)
      modifies this
      ensures State() == Step(old(State()), Op.SetAutoSync(id, user, autoSync, now))
      ensures r.Answer? <==> cipherUp && Commits(old(State()), Op.SetAutoSync(id, user, autoSync, now))
      ensures r.Unavailable? <==> !cipherUp && Commits(old(State()), Op.SetAutoSync(id, user, autoSync, now))
      ensures r.Answer? ==> id in pages && r.value == pages[id]
      ensures r.OwnerErased? <==> user in old(erased)
      ensures r.NotFound? <==> user !in old(erased) && !(id in old(pages) && old(pages)[id].owner == user)
      ensures r.Answer? || r.OwnerErased? || r.NotFound? || r.Unavailable?
      ensures erased == old(erased)
      ensures !r.Answer? && !r.Unavailable? ==> pages == old(pages)
      ensures r.Answer? || r.Unavailable? ==>
        && id in old(pages) && var p := old(pages)[id];
           var fenced := !autoSync && p.reason == Automatic && (p.sync == Queued || p.sync == Running);
           pages == if p.autoSync == autoSync then old(pages) else old(pages)[id := p.(
             autoSync := autoSync,
             nextSyncAt :=
               if !autoSync then None
               else Some((if p.lastCheckedAt.Some? then p.lastCheckedAt.value else now) + 86_400_000_000),
             sync := if fenced then Idle else p.sync,
             claimToken := if fenced then None else p.claimToken,
             claimedAt := if fenced then None else p.claimedAt,
             updatedAt := now)]
    {
      if user in erased {
        return OwnerErased;
      }
      if id !in pages || pages[id].owner != user {
        return NotFound;
      }
      var page := pages[id];
      if page.autoSync != autoSync {
        page := page.(autoSync := autoSync);
        if autoSync {
          var base := if page.lastCheckedAt.Some? then page.lastCheckedAt.value else now;
          page := page.(nextSyncAt := Some(base + SYNC_INTERVAL));
        } else {
          page := page.(nextSyncAt := None);
        }
        if !autoSync && page.reason == Automatic && (page.sync == Queued || page.sync == Running) {
          page := page.(sync := Idle);
          page := page.(claimToken := None);
          page := page.(claimedAt := None);
        }
        page := page.(updatedAt := now);
      }
      pages := pages[id := page];
      return if cipherUp then Answer(page) else Unavailable;
    }

    /** One attempt of `claim` on one listed row, rechecking eligibility under the row lock. */
    method TryClaim(c: Candidate, token: Token, cipherUp: bool) returns (r: Reply<WebpageClaim>)
      modifies this
      ensures r.Answer? <==> cipherUp && !c.locked && Commits(old(State()), Op.Claim(c.id, c.owner, token, c.now))
      ensures r.Answer? ==>
        && r.value == ClaimOf(old(State()), Op.Claim(c.id, c.owner, token, c.now))
        && State() == Step(old(State()), Op.Claim(c.id, c.owner, token, c.now))
      ensures !r.Answer? ==> State() == old(State())
      ensures r.Unavailable? <==> !cipherUp && !c.locked && Commits(old(State()), Op.Claim(c.id, c.owner, token, c.now))
      ensures r.Answer? || r.Unavailable? || r.OwnerErased? || r.NotFound?
      ensures r.OwnerErased? <==> c.owner in old(erased)
      ensures r.Answer? || r.Unavailable? <==>
        && c.owner !in old(erased) && !c.locked && c.id in old(pages)
        && var p := old(pages)[c.id];
        && p.owner == c.owner
        && (|| p.sync == Queued
            || (p.sync == Running && p.claimedAt.Some? && p.claimedAt.value + 900_000_000 < c.now)
            || (p.autoSync && (p.sync == Idle || p.sync == Failed)
                && p.nextSyncAt.Some? && p.nextSyncAt.value <= c.now))
      ensures r.Answer? ==>
        && erased == old(erased) && c.id in old(pages) && var p := old(pages)[c.id];
           var reason := if p.sync == Idle || p.sync == Failed then Automatic else p.reason;
        && r.value == WebpageClaim(c.id, c.owner, token, p.urls, p.contentHash, reason)
        && pages == old(pages)[c.id := p.(
             reason := reason, sync := Running, claimToken := Some(token), claimedAt := Some(c.now),
             syncError := None, lastSyncChanged := None, updatedAt := c.now)]
    {
      if c.owner in erased {
        return OwnerErased;
      }
      if c.locked || c.id !in pages || pages[c.id].owner != c.owner || !Due(pages[c.id], c.now) {
        return NotFound;
      }
      var page := pages[c.id];
      if page.sync == Idle || page.sync == Failed {
        page := page.(reason := Automatic);
      }
      page := page.(sync := Running);
      page := page.(claimToken := Some(token));
      page := page.(claimedAt := Some(c.now));
      page := page.(syncError := None);
      page := page.(lastSyncChanged := None);
      page := page.(updatedAt := c.now);
      if !cipherUp {
        return Unavailable;
      }
      var claim := WebpageClaim(c.id, c.owner, token, page.urls, page.contentHash, page.reason);
      pages := pages[c.id := page];
      return Answer(claim);
    }

    /** A listed row the loop of `claim` would take. */
    predicate Takes(c: Candidate)
      reads this
    {
      !c.locked && c.owner !in erased && Has(State(), c.id, c.owner) && Due(pages[c.id], c.now)
    }

    /**
     `claim`: the first listed row that is still eligible, whatever the listing says by now.
     The listing was read in an earlier transaction and may be stale in every respect.
     */
    method Claim(candidates: seq<Candidate>, token: Token, cipherUp: bool)
      returns (r: Reply<WebpageClaim>, chosen: nat)
      modifies this
      ensures chosen <= |candidates|
      ensures forall k :: 0 <= k < chosen ==> !old(Takes(candidates[k]))
      ensures chosen < |candidates| ==>
        (&& old(Takes(candidates[chosen]))
         && var op := Op.Claim(candidates[chosen].id, candidates[chosen].owner, token, candidates[chosen].now);
            if cipherUp then State() == Step(old(State()), op) && r == Answer(ClaimOf(old(State()), op))
            else State() == old(State()) && r == Unavailable)
      ensures chosen == |candidates| ==> r == NotFound && State() == old(State())
    {
      chosen := 0;
      while chosen < |candidates|
        invariant chosen <= |candidates|
        invariant State() == old(State())
        invariant forall k :: 0 <= k < chosen ==> !old(Takes(candidates[k]))
      {
        r := TryClaim(candidates[chosen], token, cipherUp);
        if r.Answer? || r.Unavailable? {
          return;
        }
        chosen := chosen + 1;
      }
      r := NotFound;
    }

    method ClaimIsCurrent(claim: WebpageClaim) returns (current: bool)
      ensures current <==> IsCurrent(State(), claim)
      ensures current <==>
        && claim.owner !in erased && claim.id in pages && pages[claim.id].owner == claim.owner
        && pages[claim.id].sync == Running && pages[claim.id].claimToken == Some(claim.token)
    {
      if claim.owner in erased {
        return false;
      }
      return claim.id in pages && pages[claim.id].owner == claim.owner
          && pages[claim.id].sync == Running && pages[claim.id].claimToken == Some(claim.token);
    }

    /**
     `finish`. `Answer(false)` means the claim is no longer current, `Invalid` that a current
     claim brought an unusable result.
     */
    method Finish(claim: WebpageClaim, content: string, contentHash: ContentHash,
                  chunks: Option<seq<IngestChunk>>, embeddings: Option<seq<Vector>>, now: Time,
                  cipherUp: bool)
      returns (r: Reply<bool>)
      modifies this
      ensures var op := Op.Finish(claim, content, contentHash, chunks, embeddings, now);
        && (r == Answer(true) ==> Commits(old(State()), op) && State() == Step(old(State()), op))
        && (r != Answer(true) ==> State() == old(State()))
        && (r == Answer(false) <==> !IsCurrent(old(State()), claim))
        && (r == Invalid <==> IsCurrent(old(State()), claim) && !Publishable(old(pages)[claim.id], op))
        && (r == Unavailable <==>
              && Commits(old(State()), op) && !cipherUp
              && old(pages)[claim.id].contentHash != Some(contentHash))
      ensures r.Answer? || r.Invalid? || r.Unavailable?
      ensures r == Answer(true) ==>
        && erased == old(erased) && claim.id in old(pages) && claim.id in pages
        && pages.Keys == old(pages).Keys
        && (forall d :: d in pages && d != claim.id ==> pages[d] == old(pages)[d])
        && var p, q := old(pages)[claim.id], pages[claim.id];
           var changed := p.contentHash != Some(contentHash);
        && (if changed then StoresEach(q.chunks, chunks, embeddings) else q.chunks == p.chunks)
        && q == p.(
             content := if changed then content else p.content, contentHash := Some(contentHash),
             chunks := q.chunks, status := Ready, error := None, sync := Idle, syncError := None,
             lastSyncChanged := Some(changed), lastCheckedAt := Some(now), lastSyncedAt := Some(now),
             nextSyncAt := if p.autoSync then Some(now + 86_400_000_000) else None,
             claimToken := None, claimedAt := None, updatedAt := now)
      ensures r == Invalid <==>
        && claim.owner !in old(erased) && claim.id in old(pages) && old(pages)[claim.id].owner == claim.owner
        && old(pages)[claim.id].sync == Running && old(pages)[claim.id].claimToken == Some(claim.token)
        && (content == ""
            || (old(pages)[claim.id].contentHash != Some(contentHash)
                && (chunks.None? || chunks.value == [] || embeddings.None?
                    || |chunks.value| != |embeddings.value|)))
    {
      var current := ClaimIsCurrent(claim);
      if !current {
        return Answer(false);
      }
      var page := pages[claim.id];
      var changed := page.contentHash != Some(contentHash);
      if content == "" {
        return Invalid;
      }
      if changed {
        if chunks == None || chunks.value == [] || embeddings == None
           || |chunks.value| != |embeddings.value| {
          return Invalid;
        }
        if !cipherUp {
          return Unavailable;
        }
        var stored: seq<StoredChunk> := [];
        for i := 0 to |chunks.value|
          invariant |stored| == i
          invariant forall j :: 0 <= j < i ==> stored[j] == StoredChunk(chunks.value[j], embeddings.value[j])
        {
          stored := stored + [StoredChunk(chunks.value[i], embeddings.value[i])];
        }
        assert stored == Zip(chunks.value, embeddings.value);
        page := page.(chunks := stored);
        page := page.(content := content);
        page := page.(contentHash := Some(contentHash));
      }
      page := page.(status := Ready);
      page := page.(error := None);
      page := page.(sync := Idle);
      page := page.(syncError := None);
      page := page.(lastSyncChanged := Some(changed));
      page := page.(lastCheckedAt := Some(now));
      page := page.(lastSyncedAt := Some(now));
      page := page.(nextSyncAt := if page.autoSync then Some(now + SYNC_INTERVAL) else None);
      page := page.(claimToken := None);
      page := page.(claimedAt := None);
      page := page.(updatedAt := now);
      pages := pages[claim.id := page];
      return Answer(true);
    }

    /** `fail`: always seals its message, so it needs the encryption service. */
    method Fail(claim: WebpageClaim, message: string, now: Time, cipherUp: bool)
      returns (r: Reply<bool>)
      modifies this
      ensures State() == if cipherUp then Step(old(State()), Op.Fail(claim, message, now)) else old(State())
      ensures r == Answer(true) <==> cipherUp && IsCurrent(old(State()), claim)
      ensures r == Answer(false) <==> !IsCurrent(old(State()), claim)
      ensures r.Answer? || r.Unavailable?
      ensures erased == old(erased)
      ensures r != Answer(true) ==> pages == old(pages)
      ensures r == Answer(true) ==>
        && claim.id in old(pages) && claim.id in pages && pages[claim.id].syncError.Some?
        && var p, shown := old(pages)[claim.id], pages[claim.id].syncError.value;
        && shown <= message && |shown| == Min(|message|, 1000)
        && pages == old(pages)[claim.id := p.(
             sync := Failed, syncError := Some(shown), lastSyncChanged := None,
             status := if p.contentHash == None then Broken else p.status,
             error := if p.contentHash == None then Some(shown) else p.error,
             lastCheckedAt := Some(now), nextSyncAt := if p.autoSync then Some(now + 86_400_000_000) else None,
             claimToken := None, claimedAt := None, updatedAt := now)]
    {
      var current := ClaimIsCurrent(claim);
      if !current {
        return Answer(false);
      }
      if !cipherUp {
        return Unavailable;
      }
      var page := pages[claim.id];
      var error := Clip(message);
      page := page.(sync := Failed);
      if page.contentHash == None {
        page := page.(status := Broken);
        page := page.(error := Some(error));
      }
      page := page.(syncError := Some(error));
      page := page.(lastSyncChanged := None);
      page := page.(lastCheckedAt := Some(now));
      page := page.(nextSyncAt := if page.autoSync then Some(now + SYNC_INTERVAL) else None);
      page := page.(claimToken := None);
      page := page.(claimedAt := None);
      page := page.(updatedAt := now);
      pages := pages[claim.id := page];
      return Answer(true);
    }
  }
}
