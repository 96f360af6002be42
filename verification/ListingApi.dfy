/**
 The handlers in their own form: a Redis client holding the cache, and request
 handlers that change database rows in place and then invalidate.
 */
module ListingApi {
  import opened Types
  import opened Listing
  import Laws = ListingLaws

  class Redis {
    var store: map<string, Page>

    constructor ()
      ensures store == map[]
    {
      store := map[];
    }

    method CacheGet(key: string) returns (r: Option<Page>)
      ensures r == if key in store then Some(store[key]) else None
    {
      if key in store { return Some(store[key]); }
      return None;
    }

    method CacheSet(key: string, value: Page)
      modifies this
      ensures store == old(store)[key := value]
    {
      store := store[key := value];
    }

    /** keys(pattern), then delete(*keys). */
    method CacheDeletePattern(pattern: string)
      modifies this
      ensures store == Without(old(store), pattern)
    {
      var keys := set k | k in store && Matches(pattern, k);
      assert store - keys == Without(store, pattern);
      if keys != {} { store := store - keys; }
    }

    method InvalidatePolicyCache(user: nat)
      modifies this
      ensures store == Invalidate(old(store), Some(user))
    {
      CacheDeletePattern(UserPrefix(user) + "*");
    }
  }

  class Api {
    const users: map<string, nat>
    const redis: Redis
    var policies: seq<Row>
    var claims: seq<ClaimRow>

    ghost function Db(): Database
      reads this
    {
      Database(users, policies, claims)
    }

    ghost function Whole(): System
      reads this, redis
    {
      System(Db(), redis.store)
    }

    constructor (users: map<string, nat>)
      ensures fresh(redis) && Whole() == System(Database(users, [], []), map[])
    {
      this.users := users;
      redis := new Redis();
      policies, claims := [], [];
    }

    method GetUserPolicies(user: nat, q: Query) returns (r: Reply)
      modifies redis
      ensures (Whole(), r) == ListOn(old(Whole()), user, q)
    {
      if !ValidQuery(q) { return Failed(BadQuery); }
      var key := Key(user, q);
      var cached := redis.CacheGet(key);
      if cached.Some? { return Listed(cached.value); }
      if q.account.Some? && (q.account.value !in users || users[q.account.value] != user) {
        return Listed(Page([], 0, q.page, q.perPage, false, 0));
      }
      var result := BuildPage(Select(policies, user, q), q);
      redis.CacheSet(key, result);
      return Listed(result);
    }

    /** Count, order, offset and limit of the filtered rows. */
    method BuildPage(filtered: seq<Row>, q: Query) returns (p: Page)
      requires ValidQuery(q)
      ensures p == Paged(Newest(filtered), q)
    {
      Laws.NewestSpec(filtered);
      var total := |filtered|;
      var offset := Offset(q.page, q.perPage);
      p := Page(Slice(Newest(filtered), offset, q.perPage), total, q.page, q.perPage,
                offset + q.perPage < total, TotalPages(total, q.perPage));
    }

    method CreatePolicy(clock: Clock, user: nat, data: PolicyData) returns (r: Reply)
      modifies this`policies, redis
      ensures (Whole(), r) == Step(old(Whole()), clock, Change(Write.CreatePolicy(user, data)))
    {
      if data.end <= data.start { return Failed(InvalidTimeRange); }
      var row := Row(|policies| + 1, user, data.policyType, data.coverage, data.premium, data.start, data.end,
                     data.trigger, Active, 0, clock.stamp, clock.stamp);
      policies := policies + [row];
      redis.InvalidatePolicyCache(user);
      return Created(row);
    }

    method CancelPolicy(clock: Clock, user: nat, id: nat) returns (r: Reply)
      modifies this`policies, redis
      ensures (Whole(), r) == Step(old(Whole()), clock, Change(Write.CancelPolicy(user, id)))
    {
      var found := Owned(policies, id, user);
      if found.None? { return Failed(NoSuchPolicy); }
      if Terminal(found.value.status) { return Failed(AlreadyTerminal); }
      Save(clock, id, found.value.(status := Cancelled));
      redis.InvalidatePolicyCache(user);
      return Message;
    }

    method CreateClaim(clock: Clock, user: nat, id: nat, amount: int, proof: string) returns (r: Reply)
      modifies this`policies, this`claims, redis
      ensures (Whole(), r) == Step(old(Whole()), clock, Change(Write.CreateClaim(user, id, amount, proof)))
    {
      var found := Owned(policies, id, user);
      if found.None? { return Failed(NoSuchPolicy); }
      if !CanClaim(found.value, clock.seconds) { return Failed(NotEligible); }
      if amount > found.value.coverage - found.value.claimAmount { return Failed(InsufficientCoverage); }
      var claim := ClaimRow(|claims| + 1, id, user, amount, proof, false);
      Save(clock, id, found.value.(status := ClaimPending));
      claims := claims + [claim];
      redis.InvalidatePolicyCache(user);
      return Claimed(claim);
    }

    method CreateClaimWithFile(clock: Clock, user: nat, id: nat, amount: int, upload: Option<string>) returns (r: Reply)
      modifies this`policies, this`claims, redis
      ensures (Whole(), r) == Step(old(Whole()), clock, Change(Write.CreateClaimWithFile(user, id, amount, upload)))
    {
      var found := Owned(policies, id, user);
      if found.None? { return Failed(NoSuchPolicy); }
      if !CanClaim(found.value, clock.seconds) { return Failed(NotEligible); }
      if amount > found.value.coverage - found.value.claimAmount { return Failed(InsufficientCoverage); }
      if upload.None? { return Failed(UploadFailed); }
      var claim := ClaimRow(|claims| + 1, id, user, amount, upload.value, false);
      Save(clock, id, found.value.(status := ClaimPending));
      claims := claims + [claim];
      redis.InvalidatePolicyCache(user);
      return Claimed(claim);
    }

    method UpdateClaimStatus(clock: Clock, id: nat, approved: bool) returns (r: Reply)
      modifies this`policies, this`claims, redis
      ensures (Whole(), r) == Step(old(Whole()), clock, Change(Write.UpdateClaimStatus(id, approved)))
    {
      var found := FindClaim(claims, id);
      if found.None? { return Failed(NoSuchClaim); }
      var claim := found.value.(approved := approved);
      claims := claims[id - 1 := claim];
      var policy := Find(policies, claim.policy);
      if policy.Some? {
        var row := policy.value;
        if approved {
          row := row.(status := ClaimApproved, claimAmount := row.claimAmount + claim.amount);
        } else {
          row := row.(status := ClaimRejected);
        }
        Save(clock, claim.policy, row);
        redis.InvalidatePolicyCache(row.holder);
      }
      return Claimed(claim);
    }

    /** Flushing a changed row. */
    method Save(clock: Clock, id: nat, row: Row)
      requires Find(policies, id).Some?
      modifies this`policies
      ensures policies == old(policies)[id - 1 := Touch(old(policies)[id - 1], row, clock.stamp)]
    {
      policies := policies[id - 1 := Touch(policies[id - 1], row, clock.stamp)];
    }
  }

}
