/** The brand table of brand_cert.cpp, its markers split at the commas. */
module BrandTable {
  import opened Brand

  const ROWS_1: seq<BrandMarker> := [
    BrandMarker("amazon.com", ["amazon", "aws", "a100 row", "amazon technologies"]),
    BrandMarker("aws.amazon.com", ["amazon", "aws"]),
    BrandMarker("microsoft.com", ["microsoft", "msn", "msft", "akamai", "edgecast"]),
    BrandMarker("apple.com", ["apple", "akamai"]),
    BrandMarker("icloud.com", ["apple"]),
    BrandMarker("google.com", ["google", "gts", "gcp", "youtube"]),
    BrandMarker("googleusercontent.com", ["google", "gcp"]),
    BrandMarker("googleapis.com", ["google", "gcp"]),
    BrandMarker("youtube.com", ["google", "youtube"]),
    BrandMarker("cloudflare.com", ["cloudflare", "cloudflare inc"]),
    BrandMarker("github.com", ["github", "microsoft", "fastly"]),
    BrandMarker("gitlab.com", ["gitlab", "cloudflare"])]

  const ROWS_2: seq<BrandMarker> := [
    BrandMarker("bitbucket.org", ["atlassian", "amazon"]),
    BrandMarker("yahoo.com", ["yahoo", "oath", "verizon"]),
    BrandMarker("netflix.com", ["netflix", "akamai"]),
    BrandMarker("cdn.jsdelivr.net", ["fastly", "cloudflare"]),
    BrandMarker("bing.com", ["microsoft"]),
    BrandMarker("gstatic.com", ["google"]),
    BrandMarker("wikipedia.org", ["wikimedia"]),
    BrandMarker("wikimedia.org", ["wikimedia"]),
    BrandMarker("linkedin.com", ["linkedin", "microsoft"]),
    BrandMarker("office.com", ["microsoft"]),
    BrandMarker("office365.com", ["microsoft"]),
    BrandMarker("outlook.com", ["microsoft"])]

  const ROWS_3: seq<BrandMarker> := [
    BrandMarker("live.com", ["microsoft"]),
    BrandMarker("azure.com", ["microsoft"]),
    BrandMarker("onedrive.com", ["microsoft"]),
    BrandMarker("facebook.com", ["facebook", "meta"]),
    BrandMarker("instagram.com", ["facebook", "meta"]),
    BrandMarker("whatsapp.com", ["facebook", "meta"]),
    BrandMarker("whatsapp.net", ["facebook", "meta"]),
    BrandMarker("messenger.com", ["facebook", "meta"]),
    BrandMarker("threads.net", ["facebook", "meta"]),
    BrandMarker("twitter.com", ["twitter", "x corp", "x holdings"]),
    BrandMarker("x.com", ["twitter", "x corp", "x holdings"]),
    BrandMarker("tiktok.com", ["tiktok", "bytedance", "akamai"])]

  const ROWS_4: seq<BrandMarker> := [
    BrandMarker("telegram.org", ["telegram", "telegram messenger"]),
    BrandMarker("t.me", ["telegram", "telegram messenger"]),
    BrandMarker("telegram.me", ["telegram", "telegram messenger"]),
    BrandMarker("discord.com", ["discord", "cloudflare", "google"]),
    BrandMarker("discordapp.com", ["discord", "cloudflare", "google"]),
    BrandMarker("slack.com", ["slack", "amazon", "aws"]),
    BrandMarker("zoom.us", ["zoom"]),
    BrandMarker("signal.org", ["signal", "amazon", "aws"]),
    BrandMarker("yandex.ru", ["yandex"]),
    BrandMarker("yandex.net", ["yandex"]),
    BrandMarker("yandex.com", ["yandex"]),
    BrandMarker("ya.ru", ["yandex"])]

  const ROWS_5: seq<BrandMarker> := [
    BrandMarker("mail.ru", ["mail.ru", "vk", "v kontakte"]),
    BrandMarker("vk.com", ["vk", "v kontakte", "mail.ru"]),
    BrandMarker("vk.ru", ["vk", "v kontakte", "mail.ru"]),
    BrandMarker("vkontakte.ru", ["vk", "v kontakte", "mail.ru"]),
    BrandMarker("ok.ru", ["vk", "v kontakte", "mail.ru"]),
    BrandMarker("avito.ru", ["avito", "kiev internet"]),
    BrandMarker("ozon.ru", ["ozon"]),
    BrandMarker("wildberries.ru", ["wildberries"]),
    BrandMarker("kinopoisk.ru", ["yandex"]),
    BrandMarker("rutube.ru", ["rutube", "rbc", "gpmd"]),
    BrandMarker("dzen.ru", ["yandex", "vk"]),
    BrandMarker("habr.com", ["habr", "habrahabr"])]

  const ROWS_6: seq<BrandMarker> := [
    BrandMarker("rambler.ru", ["rambler", "rambler internet"]),
    BrandMarker("sberbank.ru", ["sberbank", "sber"]),
    BrandMarker("sber.ru", ["sberbank", "sber"]),
    BrandMarker("sberbank.com", ["sberbank", "sber"]),
    BrandMarker("tinkoff.ru", ["tinkoff", "t-bank", "tcs"]),
    BrandMarker("tbank.ru", ["tinkoff", "t-bank", "tcs"]),
    BrandMarker("vtb.ru", ["vtb", "vtb bank"]),
    BrandMarker("alfabank.ru", ["alfabank", "alfa bank"]),
    BrandMarker("gazprombank.ru", ["gazprombank", "gazprom"]),
    BrandMarker("rosbank.ru", ["rosbank", "societe"]),
    BrandMarker("gosuslugi.ru", ["rostelecom", "rt", "rt-labs"]),
    BrandMarker("mos.ru", ["dit", "moscow", "mgts"])]

  const ROWS_7: seq<BrandMarker> := [
    BrandMarker("rt.ru", ["rostelecom", "rt"]),
    BrandMarker("nalog.gov.ru", ["rostelecom", "rt"]),
    BrandMarker("mts.ru", ["mts"]),
    BrandMarker("megafon.ru", ["megafon"]),
    BrandMarker("beeline.ru", ["beeline", "vimpelcom", "pjsc vimpelcom"]),
    BrandMarker("rostelecom.ru", ["rostelecom", "rt"]),
    BrandMarker("tele2.ru", ["tele2", "rostelecom"]),
    BrandMarker("stripe.com", ["stripe", "amazon", "aws"]),
    BrandMarker("paypal.com", ["paypal", "akamai"]),
    BrandMarker("shopify.com", ["shopify", "fastly", "cloudflare"]),
    BrandMarker("adobe.com", ["adobe"]),
    BrandMarker("salesforce.com", ["salesforce"])]

  const ROWS_8: seq<BrandMarker> := [
    BrandMarker("dropbox.com", ["dropbox", "amazon", "aws"]),
    BrandMarker("spotify.com", ["spotify", "amazon", "aws"]),
    BrandMarker("twitch.tv", ["twitch", "amazon", "aws"]),
    BrandMarker("vimeo.com", ["vimeo", "akamai", "amazon"]),
    BrandMarker("reddit.com", ["reddit", "fastly"]),
    BrandMarker("steampowered.com", ["valve", "akamai"]),
    BrandMarker("steamcommunity.com", ["valve", "akamai"]),
    BrandMarker("playstation.com", ["sony", "akamai"]),
    BrandMarker("xbox.com", ["microsoft"]),
    BrandMarker("nintendo.com", ["nintendo", "amazon", "aws", "akamai"]),
    BrandMarker("epicgames.com", ["epic games", "cloudflare", "amazon"]),
    BrandMarker("battle.net", ["blizzard", "akamai"])]

  const BRANDS: seq<BrandMarker> := ROWS_1 + ROWS_2 + ROWS_3 + ROWS_4 + ROWS_5 + ROWS_6 + ROWS_7 + ROWS_8

  predicate Named(r: BrandMarker) { r.brand != "" && r.brand[0] != '*' }

  predicate AllNamed(rows: seq<BrandMarker>) { forall i :: 0 <= i < |rows| ==> Named(rows[i]) }

  lemma {:induction false} Rows1Named()
    ensures AllNamed(ROWS_1)
  { }

  lemma {:induction false} Rows2Named()
    ensures AllNamed(ROWS_2)
  { }

  lemma {:induction false} Rows3Named()
    ensures AllNamed(ROWS_3)
  { }

  lemma {:induction false} Rows4Named()
    ensures AllNamed(ROWS_4)
  { }

  lemma {:induction false} Rows5Named()
    ensures AllNamed(ROWS_5)
  { }

  lemma {:induction false} Rows6Named()
    ensures AllNamed(ROWS_6)
  { }

  lemma {:induction false} Rows7Named()
    ensures AllNamed(ROWS_7)
  { }

  lemma {:induction false} Rows8Named()
    ensures AllNamed(ROWS_8)
  { }

  lemma {:induction false} JoinNamed(a: seq<BrandMarker>, b: seq<BrandMarker>)
    requires AllNamed(a) && AllNamed(b)
    ensures AllNamed(a + b)
  { }

  lemma {:induction false} NamedWellFormed(rows: seq<BrandMarker>)
    requires AllNamed(rows)
    ensures WellFormed(rows)
  { }

  /** The table is one on which the brand of a name is its own brand. */
  lemma {:induction false} BrandsWellFormed()
    ensures WellFormed(BRANDS)
  {
    hide AllNamed, WellFormed;
    Rows1Named();
    Rows2Named();
    Rows3Named();
    Rows4Named();
    Rows5Named();
    Rows6Named();
    Rows7Named();
    Rows8Named();
    JoinNamed(ROWS_1, ROWS_2);
    JoinNamed(ROWS_1 + ROWS_2, ROWS_3);
    JoinNamed(ROWS_1 + ROWS_2 + ROWS_3, ROWS_4);
    JoinNamed(ROWS_1 + ROWS_2 + ROWS_3 + ROWS_4, ROWS_5);
    JoinNamed(ROWS_1 + ROWS_2 + ROWS_3 + ROWS_4 + ROWS_5, ROWS_6);
    JoinNamed(ROWS_1 + ROWS_2 + ROWS_3 + ROWS_4 + ROWS_5 + ROWS_6, ROWS_7);
    JoinNamed(ROWS_1 + ROWS_2 + ROWS_3 + ROWS_4 + ROWS_5 + ROWS_6 + ROWS_7, ROWS_8);
    NamedWellFormed(BRANDS);
  }
}
