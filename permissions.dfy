/** The admin dashboard's guild access rules: which of the guilds a signed-in
    Discord user belongs to they may administer. The user's guild list, the
    configuration and allowlist tables and the member role lookup are
    oracles. */
module Permissions {
  import opened Wrappers

  datatype DiscordGuild = DiscordGuild(id: string, name: string)

  datatype AllowedGuild = AllowedGuild(guildId: string, name: string)

  /** A `GuildConfig` row as far as access is concerned: its primary key and
      the optional admin role. */
  datatype GuildConfig = GuildConfig(id: string, adminRoleId: Option<string>)

  /** The lookups the rules consult: the configuration row of a guild, the
      allowlist (by configuration id and user id) and the user's role ids in
      a guild (empty when the bot cannot see the member). */
  datatype Directory = Directory(
    configOf: string -> Option<GuildConfig>,
    isAllowlisted: (string, string) -> bool,
    roleIds: (string, string) -> seq<string>)

  function ToAllowed(g: DiscordGuild): AllowedGuild {
    AllowedGuild(g.id, g.name)
  }

  /** A non-super-admin user administers a guild when it has a configuration
      and the user is allowlisted there or holds its (non-empty) admin role. */
  predicate Permitted(dir: Directory, userId: string, g: DiscordGuild) {
    var config := dir.configOf(g.id);
    && config.Some?
    && (|| dir.isAllowlisted(config.value.id, userId)
        || (config.value.adminRoleId.Some? && config.value.adminRoleId.value != ""
            && config.value.adminRoleId.value in dir.roleIds(g.id, userId)))
  }

  /** Every guild of the list, mapped to its entry. */
  function AllGuilds(guilds: seq<DiscordGuild>): (r: seq<AllowedGuild>)
    ensures |r| == |guilds| && forall i :: 0 <= i < |guilds| ==> r[i] == ToAllowed(guilds[i])
  {
    seq(|guilds|, i requires 0 <= i < |guilds| => ToAllowed(guilds[i]))
  }

  /** The permitted guilds, in the order of the input list. */
  function PermittedGuilds(dir: Directory, userId: string, guilds: seq<DiscordGuild>): (r: seq<AllowedGuild>)
    ensures |r| <= |guilds|
  {
    if |guilds| == 0 then []
    else
      var rest := PermittedGuilds(dir, userId, guilds[..|guilds| - 1]);
      var g := guilds[|guilds| - 1];
      if Permitted(dir, userId, g) then rest + [ToAllowed(g)] else rest
  }

  /** `e` is the entry of a permitted guild of the list. */
  predicate FromPermitted(dir: Directory, userId: string, guilds: seq<DiscordGuild>, e: AllowedGuild) {
    exists i :: 0 <= i < |guilds| && e == ToAllowed(guilds[i]) && Permitted(dir, userId, guilds[i])
  }

  /** Only permitted guilds of the list are returned. */
  lemma {:induction false} PermittedGuildsSound(dir: Directory, userId: string, guilds: seq<DiscordGuild>)
    ensures forall k :: 0 <= k < |PermittedGuilds(dir, userId, guilds)| ==>
      FromPermitted(dir, userId, guilds, PermittedGuilds(dir, userId, guilds)[k])
  {
    if |guilds| > 0 {
      var init := guilds[..|guilds| - 1];
      var rest := PermittedGuilds(dir, userId, init);
      var r := PermittedGuilds(dir, userId, guilds);
      PermittedGuildsSound(dir, userId, init);
      var last := |guilds| - 1;
      assert r == if Permitted(dir, userId, guilds[last]) then rest + [ToAllowed(guilds[last])] else rest;
      forall k | 0 <= k < |r|
        ensures FromPermitted(dir, userId, guilds, r[k])
      {
        if k < |rest| {
          assert FromPermitted(dir, userId, init, rest[k]);
          var i :| 0 <= i < |init| && rest[k] == ToAllowed(init[i]) && Permitted(dir, userId, init[i]);
          assert r[k] == rest[k] && init[i] == guilds[i];
        } else {
          assert Permitted(dir, userId, guilds[last]) && r[k] == ToAllowed(guilds[last]);
        }
      }
    }
  }

  /** Every permitted guild of the list is returned. */
  lemma {:induction false} PermittedGuildsComplete(dir: Directory, userId: string, guilds: seq<DiscordGuild>)
    ensures forall i :: 0 <= i < |guilds| && Permitted(dir, userId, guilds[i]) ==>
      ToAllowed(guilds[i]) in PermittedGuilds(dir, userId, guilds)
  {
    if |guilds| > 0 {
      var init := guilds[..|guilds| - 1];
      var rest := PermittedGuilds(dir, userId, init);
      var r := PermittedGuilds(dir, userId, guilds);
      PermittedGuildsComplete(dir, userId, init);
      forall i | 0 <= i < |guilds| && Permitted(dir, userId, guilds[i])
        ensures ToAllowed(guilds[i]) in r
      {
        if i < |init| {
          assert init[i] == guilds[i];
          assert ToAllowed(init[i]) in rest;
          assert r[..|rest|] == rest;
        } else {
          assert r[|r| - 1] == ToAllowed(guilds[i]);
        }
      }
    }
  }

  /** When every guild is permitted, the filter hands back the whole list. */
  lemma {:induction false} AllPermittedKeepsAll(dir: Directory, userId: string, guilds: seq<DiscordGuild>)
    requires forall i :: 0 <= i < |guilds| ==> Permitted(dir, userId, guilds[i])
    ensures PermittedGuilds(dir, userId, guilds) == AllGuilds(guilds)
  {
    if |guilds| > 0 {
      var init := guilds[..|guilds| - 1];
      assert forall i :: 0 <= i < |init| ==> init[i] == guilds[i];
      AllPermittedKeepsAll(dir, userId, init);
      assert Permitted(dir, userId, guilds[|guilds| - 1]);
      assert AllGuilds(guilds) == AllGuilds(init) + [ToAllowed(guilds[|guilds| - 1])];
    }
  }

  /** The filter works guild by guild: filtering a concatenation
      concatenates the filtered parts, so the order of the user's guild list
      is kept and each guild contributes at most one entry. */
  lemma {:induction false} PermittedGuildsSplit(
    dir: Directory, userId: string, front: seq<DiscordGuild>, back: seq<DiscordGuild>)
    ensures PermittedGuilds(dir, userId, front + back)
      == PermittedGuilds(dir, userId, front) + PermittedGuilds(dir, userId, back)
  {
    if |back| == 0 {
      assert front + back == front;
    } else {
      var init := back[..|back| - 1];
      assert (front + back)[..|front + back| - 1] == front + init;
      assert (front + back)[|front + back| - 1] == back[|back| - 1];
      PermittedGuildsSplit(dir, userId, front, init);
    }
  }

  /** One more guild of the list adds its entry exactly when it is permitted. */
  lemma PermittedGuildsStep(dir: Directory, userId: string, guilds: seq<DiscordGuild>, n: nat)
    requires n < |guilds|
    ensures PermittedGuilds(dir, userId, guilds[..n + 1]) ==
      PermittedGuilds(dir, userId, guilds[..n]) + (if Permitted(dir, userId, guilds[n]) then [ToAllowed(guilds[n])] else [])
  {
    assert guilds[..n + 1][..n] == guilds[..n];
  }

  /** The result of `listAllowedGuilds`: every guild unchanged for the super
      admin, the permitted ones for anyone else. */
  function AllowedGuilds(dir: Directory, superAdminId: string, userId: string, guilds: seq<DiscordGuild>)
    : (r: seq<AllowedGuild>)
    ensures userId == superAdminId ==>
      |r| == |guilds| && forall i :: 0 <= i < |guilds| ==> r[i] == AllowedGuild(guilds[i].id, guilds[i].name)
    ensures userId != superAdminId ==>
      && |r| <= |guilds|
      && (forall k :: 0 <= k < |r| ==> FromPermitted(dir, userId, guilds, r[k]))
      && (forall i :: 0 <= i < |guilds| && Permitted(dir, userId, guilds[i]) ==> ToAllowed(guilds[i]) in r)
    ensures userId != superAdminId ==> r == PermittedGuilds(dir, userId, guilds)
  {
    PermittedGuildsSound(dir, userId, guilds);
    PermittedGuildsComplete(dir, userId, guilds);
    if userId == superAdminId then AllGuilds(guilds)
    else PermittedGuilds(dir, userId, guilds)
  }

  /** `listAllowedGuilds`, looping over the user's guilds. */
  method ListAllowedGuilds(dir: Directory, superAdminId: string, userId: string, guilds: seq<DiscordGuild>)
    returns (allowed: seq<AllowedGuild>)
    ensures allowed == AllowedGuilds(dir, superAdminId, userId, guilds)
  {
    if userId == superAdminId {
      return AllGuilds(guilds);
    }
    allowed := [];
    for n := 0 to |guilds|
      invariant allowed == PermittedGuilds(dir, userId, guilds[..n])
    {
      PermittedGuildsStep(dir, userId, guilds, n);
      var g := guilds[n];
      var config := dir.configOf(g.id);
      if config.None? {
        continue;
      }
      if dir.isAllowlisted(config.value.id, userId) {
        allowed := allowed + [ToAllowed(g)];
        continue;
      }
      if config.value.adminRoleId.Some? && config.value.adminRoleId.value != "" {
        var roleIds := dir.roleIds(g.id, userId);
        if config.value.adminRoleId.value in roleIds {
          allowed := allowed + [ToAllowed(g)];
          continue;
        }
      }
    }
    assert guilds[..|guilds|] == guilds;
  }

  /** `allowed.some((g) => g.guildId === guildId)`. */
  predicate HasGuildId(allowed: seq<AllowedGuild>, guildId: string) {
    exists k :: 0 <= k < |allowed| && allowed[k].guildId == guildId
  }

  /** A guild id is among the filter's entries exactly when a permitted
      guild of the list has it. */
  lemma PermittedGuildIds(dir: Directory, userId: string, guilds: seq<DiscordGuild>, guildId: string)
    ensures HasGuildId(PermittedGuilds(dir, userId, guilds), guildId)
      <==> exists i :: 0 <= i < |guilds| && guilds[i].id == guildId && Permitted(dir, userId, guilds[i])
  {
    var r := PermittedGuilds(dir, userId, guilds);
    PermittedGuildsSound(dir, userId, guilds);
    PermittedGuildsComplete(dir, userId, guilds);
    if HasGuildId(r, guildId) {
      var k :| 0 <= k < |r| && r[k].guildId == guildId;
      assert FromPermitted(dir, userId, guilds, r[k]);
      var i :| 0 <= i < |guilds| && r[k] == ToAllowed(guilds[i]) && Permitted(dir, userId, guilds[i]);
      assert guilds[i].id == guildId;
    }
    if exists i :: 0 <= i < |guilds| && guilds[i].id == guildId && Permitted(dir, userId, guilds[i]) {
      var i :| 0 <= i < |guilds| && guilds[i].id == guildId && Permitted(dir, userId, guilds[i]);
      assert ToAllowed(guilds[i]) in r;
      var k :| 0 <= k < |r| && r[k] == ToAllowed(guilds[i]);
      assert r[k].guildId == guildId;
      assert HasGuildId(r, guildId);
    }
  }

  /** `assertGuildAccess`: `true` when access is granted, `false` where the
      source throws "Not authorized for this guild". */
  function AssertGuildAccess(dir: Directory, superAdminId: string, userId: string, guilds: seq<DiscordGuild>, guildId: string): (ok: bool)
    ensures userId == superAdminId ==> ok
    ensures userId != superAdminId ==>
      (ok <==> exists i :: 0 <= i < |guilds| && guilds[i].id == guildId && Permitted(dir, userId, guilds[i]))
  {
    if userId == superAdminId then true
    else
      var allowed := AllowedGuilds(dir, superAdminId, userId, guilds);
      PermittedGuildIds(dir, userId, guilds, guildId);
      HasGuildId(allowed, guildId)
  }

  /** A guild without a configuration row is never listed for an ordinary
      user, whatever the allowlist and roles say. */
  lemma UnconfiguredGuildHidden(dir: Directory, superAdminId: string, userId: string, guilds: seq<DiscordGuild>, guildId: string)
    requires userId != superAdminId
    requires dir.configOf(guildId).None?
    ensures !AssertGuildAccess(dir, superAdminId, userId, guilds, guildId)
  {
  }

  /** An empty admin role id grants nothing: access then rests on the allowlist alone. */
  lemma EmptyAdminRoleGrantsNothing(dir: Directory, userId: string, g: DiscordGuild)
    requires dir.configOf(g.id).Some? && dir.configOf(g.id).value.adminRoleId == Some("")
    ensures Permitted(dir, userId, g) <==> dir.isAllowlisted(dir.configOf(g.id).value.id, userId)
  {
  }
}
