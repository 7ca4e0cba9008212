/**
 * The Discord embed built for one changeset (src/commands/feed/embed.ts and
 * its copy in src/main.ts). The embed colour is random and is not part of the
 * record.
 */
module Embeds {
  import opened Wrappers
  import opened Decimal
  import opened Types
  import opened Profiles

  const ChangesetURLBase := "https://www.openstreetmap.org/changeset/"
  const UserURLBase := "https://www.openstreetmap.org/user/"
  const ChangesSuffix := " changes"

  /** `author`: `icon_url` is present only for a non-empty image url. */
  datatype Author = Author(name: string, url: string, iconUrl: Option<string>)

  datatype Embed = Embed(
    title: string,
    description: string,
    url: string,
    timestamp: string,
    author: Author,
    footer: string)

  /** `makeEmbedFromChange(change, imageUrl)`. */
  function MakeEmbedFromChange(change: ChangesetDetails, imageUrl: Option<string>): Embed {
    Embed(
      NatToString(change.id),
      change.comment,
      ChangesetURLBase + NatToString(change.id),
      change.time,
      Author(change.username, UserURLBase + change.username,
        if imageUrl.Some? && imageUrl.value != "" then imageUrl else None),
      NatToString(change.count) + ChangesSuffix)
  }

  /**
   * The embed's title is the changeset id in decimal and its link the
   * changeset page; description, time and author come from the change; the
   * author image is shown only for a non-empty url; the footer is the change
   * count in decimal followed by " changes".
   */
  lemma MakeEmbedFromChangeFields(change: ChangesetDetails, imageUrl: Option<string>)
    ensures var e := MakeEmbedFromChange(change, imageUrl);
      && AllDigits(e.title) && DigitsValue(e.title) == change.id
      && e.url == ChangesetURLBase + e.title
      && e.description == change.comment && e.timestamp == change.time
      && e.author.name == change.username && e.author.url == UserURLBase + change.username
    ensures var e := MakeEmbedFromChange(change, imageUrl);
      && (e.author.iconUrl.Some? <==> imageUrl.Some? && imageUrl.value != "")
      && (e.author.iconUrl.Some? ==> e.author.iconUrl == imageUrl)
    ensures var e := MakeEmbedFromChange(change, imageUrl);
      && |e.footer| > |ChangesSuffix| && e.footer[|e.footer| - |ChangesSuffix|..] == ChangesSuffix
      && AllDigits(e.footer[..|e.footer| - |ChangesSuffix|])
      && DigitsValue(e.footer[..|e.footer| - |ChangesSuffix|]) == change.count
  {
    NatToStringValue(change.id);
    NatToStringValue(change.count);
    var footer := NatToString(change.count) + ChangesSuffix;
    assert footer[..|footer| - |ChangesSuffix|] == NatToString(change.count);
  }

  /** Distinct changesets get distinct titles and distinct links. */
  lemma EmbedIdentifiesChangeset(c1: ChangesetDetails, c2: ChangesetDetails, i1: Option<string>, i2: Option<string>)
    requires c1.id != c2.id
    ensures MakeEmbedFromChange(c1, i1).title != MakeEmbedFromChange(c2, i2).title
    ensures MakeEmbedFromChange(c1, i1).url != MakeEmbedFromChange(c2, i2).url
  {
    MakeEmbedFromChangeFields(c1, i1);
    MakeEmbedFromChangeFields(c2, i2);
    var e1 := MakeEmbedFromChange(c1, i1);
    var e2 := MakeEmbedFromChange(c2, i2);
    assert e1.url[|ChangesetURLBase|..] == e1.title;
    assert e2.url[|ChangesetURLBase|..] == e2.title;
  }

  /** `makeFullEmbedForChange`: the author's image comes from `profileCache.get(change.uid)`. */
  method MakeFullEmbedForChange(change: ChangesetDetails, profileCache: ProfileCache, lookup: UserLookup) returns (e: Embed)
    requires profileCache.Valid()
    modifies profileCache
    ensures profileCache.Valid()
    ensures (e, profileCache.cache)
         == (MakeEmbedFromChange(change, CacheGet(old(profileCache.cache), change.uid, lookup).0),
             CacheGet(old(profileCache.cache), change.uid, lookup).1)
    ensures profileCache.lookups
         == if change.uid in old(profileCache.cache) then old(profileCache.lookups) else old(profileCache.lookups) + [change.uid]
  {
    var imageUrl := profileCache.Get(change.uid, lookup);
    e := MakeEmbedFromChange(change, imageUrl);
  }
}
