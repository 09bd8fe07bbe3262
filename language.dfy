/** Bilingual UI text and the locale state of `src/lib/language.tsx`: two
    translation tables, the `t` lookup that falls back to the key, and the
    `LanguageProvider` that holds the current locale, persists it in the
    browser's local storage and hides its children until mounted. */
module Language {
  import opened Wrappers

  /** `Language = 'id' | 'en'`. */
  datatype Locale = Id | En

  /** The two-letter code a locale is stored under. */
  function Code(l: Locale): string {
    match l
    case Id => "id"
    case En => "en"
  }

  /** Reads a stored code back; anything but `'id'` and `'en'` is rejected. */
  function ParseLocale(s: string): (r: Option<Locale>)
    ensures r.Some? <==> s == "id" || s == "en"
    ensures r.Some? ==> Code(r.value) == s
  {
    if s == "id" then Some(Id) else if s == "en" then Some(En) else None
  }

  lemma ParseCode(l: Locale)
    ensures ParseLocale(Code(l)) == Some(l)
  {
  }

  // ---------------------------------------------------------------------
  // translation tables

  // The tables, one constant per commented section of the source object.

  /** `id`: Navbar. */
  const IdNav: map<string, string> := map[
    "nav.home" := "Beranda",
    "nav.products" := "Produk",
    "nav.events" := "Event",
    "nav.active_events" := "event aktif"
  ]

  /** `id`: Hero. */
  const IdHero: map<string, string> := map[
    "hero.subtitle" := "Kerajinan Tangan Berkualitas",
    "hero.title1" := "Handmade dengan",
    "hero.title2" := "Cinta & Kreativitas",
    "hero.description" := "Setiap jahitan adalah cerita, setiap produk adalah karya seni. Temukan keindahan kerajinan rajut handmade yang dibuat khusus untuk Anda.",
    "hero.cta" := "Lihat Koleksi"
  ]

  /** `id`: Features. */
  const IdFeatures: map<string, string> := map[
    "features.handmade.title" := "100% Handmade",
    "features.handmade.desc" := "Setiap produk rajut dibuat tangan dengan penuh cinta dan perhatian pada detail",
    "features.premium.title" := "Material Premium",
    "features.premium.desc" := "Menggunakan benang dan bahan berkualitas tinggi yang aman dan tahan lama",
    "features.custom.title" := "Custom Order",
    "features.custom.desc" := "Bisa request warna dan desain sesuai keinginan Anda via WhatsApp"
  ]

  /** `id`: Products. */
  const IdProducts: map<string, string> := map[
    "products.subtitle" := "Pilihan Terbaik",
    "products.title" := "Produk Rajut Favorit",
    "products.description" := "Koleksi produk rajut handmade terlaris yang disukai pelanggan kami",
    "products.view_all" := "Lihat Semua Produk",
    "products.featured" := "Favorit",
    "products.limited_stock" := "Stok Terbatas",
    "products.stock" := "Stok",
    "products.ready_stock" := "Ready Stock",
    "products.remaining" := "Sisa",
    "products.pcs" := "pcs",
    "products.sold_out" := "Habis",
    "products.related" := "Produk Serupa",
    "products.back_catalog" := "Kembali ke Katalog"
  ]

  /** `id`: Events. */
  const IdEvents: map<string, string> := map[
    "events.subtitle" := "Jangan Lewatkan",
    "events.title" := "Event & Promo",
    "events.description" := "Workshop rajut, bazaar kerajinan, dan promo spesial untuk penggemar handmade",
    "events.view_all" := "Lihat Semua Event",
    "events.active" := "Event Aktif",
    "events.finished" := "Event Selesai",
    "events.ongoing" := "Sedang Berlangsung",
    "events.ended" := "Selesai",
    "events.discount" := "Diskon",
    "events.location" := "Lokasi",
    "events.price" := "Harga",
    "events.quota" := "Kuota",
    "events.participants" := "Peserta",
    "events.terms" := "Syarat & Ketentuan",
    "events.back_list" := "Kembali ke Daftar Event",
    "events.interested" := "Tertarik dengan event ini? Hubungi kami untuk informasi lebih lanjut"
  ]

  /** `id`: CTA. */
  const IdCta: map<string, string> := map[
    "cta.title" := "Ingin Custom Order Produk Rajut?",
    "cta.description" := "Kami menerima pesanan custom dengan pilihan warna dan ukuran sesuai keinginan. Chat kami sekarang!",
    "cta.whatsapp" := "Pesan via WhatsApp",
    "cta.whatsapp_note" := "Klik tombol di atas untuk memesan via WhatsApp"
  ]

  /** `id`: Promo Banner. */
  const IdPromo: map<string, string> := map[
    "promo.special" := "Promo Spesial!",
    "promo.discount_up_to" := "Diskon hingga",
    "promo.view" := "Lihat Promo"
  ]

  /** `id`: Footer. */
  const IdFooter: map<string, string> := map[
    "footer.description" := "Kerajinan rajut handmade berkualitas tinggi. Setiap produk dibuat dengan penuh cinta dan perhatian pada detail.",
    "footer.menu" := "Menu",
    "footer.categories" := "Kategori",
    "footer.copyright" := "Dibuat dengan \U{1F9F6} dan \U{2764}\U{FE0F}"
  ]

  /** `id`: Search. */
  const IdSearch: map<string, string> := map[
    "search.placeholder" := "Cari produk rajut...",
    "search.showing" := "Menampilkan",
    "search.products" := "produk",
    "search.for" := "untuk"
  ]

  /** `id`: Breadcrumb. */
  const IdBreadcrumb: map<string, string> := map[
    "breadcrumb.home" := "Beranda",
    "breadcrumb.products" := "Produk",
    "breadcrumb.events" := "Event"
  ]

  /** `id`: Empty states. */
  const IdEmpty: map<string, string> := map[
    "empty.no_events" := "Belum ada event aktif saat ini. Pantau terus untuk event dan promo menarik!",
    "empty.no_products" := "Tidak ada produk yang ditemukan."
  ]

  /** `id`: Misc. */
  const IdMisc: map<string, string> := map[
    "misc.handmade_with_love" := "Handmade with love"
  ]

  /** `en`: Navbar. */
  const EnNav: map<string, string> := map[
    "nav.home" := "Home",
    "nav.products" := "Products",
    "nav.events" := "Events",
    "nav.active_events" := "active events"
  ]

  /** `en`: Hero. */
  const EnHero: map<string, string> := map[
    "hero.subtitle" := "Quality Handcraft",
    "hero.title1" := "Handmade with",
    "hero.title2" := "Love & Creativity",
    "hero.description" := "Every stitch tells a story, every product is a work of art. Discover the beauty of handmade crochet crafted especially for you.",
    "hero.cta" := "View Collection"
  ]

  /** `en`: Features. */
  const EnFeatures: map<string, string> := map[
    "features.handmade.title" := "100% Handmade",
    "features.handmade.desc" := "Each crochet product is handcrafted with love and attention to detail",
    "features.premium.title" := "Premium Materials",
    "features.premium.desc" := "Using high-quality yarn and materials that are safe and durable",
    "features.custom.title" := "Custom Order",
    "features.custom.desc" := "Request colors and designs according to your preferences via WhatsApp"
  ]

  /** `en`: Products. */
  const EnProducts: map<string, string> := map[
    "products.subtitle" := "Best Picks",
    "products.title" := "Favorite Crochet Products",
    "products.description" := "Best-selling handmade crochet collection loved by our customers",
    "products.view_all" := "View All Products",
    "products.featured" := "Featured",
    "products.limited_stock" := "Limited Stock",
    "products.stock" := "Stock",
    "products.ready_stock" := "Ready Stock",
    "products.remaining" := "Only",
    "products.pcs" := "left",
    "products.sold_out" := "Sold Out",
    "products.related" := "Related Products",
    "products.back_catalog" := "Back to Catalog"
  ]

  /** `en`: Events. */
  const EnEvents: map<string, string> := map[
    "events.subtitle" := "Don't Miss Out",
    "events.title" := "Events & Promos",
    "events.description" := "Crochet workshops, craft bazaars, and special promos for handmade lovers",
    "events.view_all" := "View All Events",
    "events.active" := "Active Events",
    "events.finished" := "Past Events",
    "events.ongoing" := "Ongoing",
    "events.ended" := "Ended",
    "events.discount" := "Discount",
    "events.location" := "Location",
    "events.price" := "Price",
    "events.quota" := "Quota",
    "events.participants" := "Participants",
    "events.terms" := "Terms & Conditions",
    "events.back_list" := "Back to Event List",
    "events.interested" := "Interested in this event? Contact us for more information"
  ]

  /** `en`: CTA. */
  const EnCta: map<string, string> := map[
    "cta.title" := "Want Custom Crochet Products?",
    "cta.description" := "We accept custom orders with your preferred colors and sizes. Chat us now!",
    "cta.whatsapp" := "Order via WhatsApp",
    "cta.whatsapp_note" := "Click the button above to order via WhatsApp"
  ]

  /** `en`: Promo Banner. */
  const EnPromo: map<string, string> := map[
    "promo.special" := "Special Promo!",
    "promo.discount_up_to" := "Discount up to",
    "promo.view" := "View Promo"
  ]

  /** `en`: Footer. */
  const EnFooter: map<string, string> := map[
    "footer.description" := "High-quality handmade crochet crafts. Every product is made with love and attention to detail.",
    "footer.menu" := "Menu",
    "footer.categories" := "Categories",
    "footer.copyright" := "Made with \U{1F9F6} and \U{2764}\U{FE0F}"
  ]

  /** `en`: Search. */
  const EnSearch: map<string, string> := map[
    "search.placeholder" := "Search crochet products...",
    "search.showing" := "Showing",
    "search.products" := "products",
    "search.for" := "for"
  ]

  /** `en`: Breadcrumb. */
  const EnBreadcrumb: map<string, string> := map[
    "breadcrumb.home" := "Home",
    "breadcrumb.products" := "Products",
    "breadcrumb.events" := "Events"
  ]

  /** `en`: Empty states. */
  const EnEmpty: map<string, string> := map[
    "empty.no_events" := "No active events at the moment. Stay tuned for exciting events and promos!",
    "empty.no_products" := "No products found."
  ]

  /** `en`: Misc. */
  const EnMisc: map<string, string> := map[
    "misc.handmade_with_love" := "Handmade with love"
  ]

  /** `translations.id`. */
  const IdTable: map<string, string> :=
    IdNav + IdHero + IdFeatures + IdProducts + IdEvents + IdCta + IdPromo + IdFooter + IdSearch + IdBreadcrumb + IdEmpty + IdMisc

  /** `translations.en`. */
  const EnTable: map<string, string> :=
    EnNav + EnHero + EnFeatures + EnProducts + EnEvents + EnCta + EnPromo + EnFooter + EnSearch + EnBreadcrumb + EnEmpty + EnMisc

  // Per section: both locales define the same keys there, no entry is
  // empty, and `misc.benefits` is not among the keys.

  lemma NavKeys()
    ensures IdNav.Keys == EnNav.Keys
  {
  }

  lemma NavFilled()
    ensures NoEmptyEntry(IdNav) && NoEmptyEntry(EnNav)
  {
  }

  lemma NavLacksBenefits()
    ensures "misc.benefits" !in IdNav
  {
  }

  lemma HeroKeys()
    ensures IdHero.Keys == EnHero.Keys
  {
  }

  lemma HeroFilled()
    ensures NoEmptyEntry(IdHero) && NoEmptyEntry(EnHero)
  {
  }

  lemma HeroLacksBenefits()
    ensures "misc.benefits" !in IdHero
  {
  }

  lemma FeaturesKeys()
    ensures IdFeatures.Keys == EnFeatures.Keys
  {
  }

  lemma FeaturesFilled()
    ensures NoEmptyEntry(IdFeatures) && NoEmptyEntry(EnFeatures)
  {
  }

  lemma FeaturesLacksBenefits()
    ensures "misc.benefits" !in IdFeatures
  {
  }

  lemma ProductsKeys()
    ensures IdProducts.Keys == EnProducts.Keys
  {
  }

  lemma ProductsFilled()
    ensures NoEmptyEntry(IdProducts) && NoEmptyEntry(EnProducts)
  {
  }

  lemma ProductsLacksBenefits()
    ensures "misc.benefits" !in IdProducts
  {
  }

  lemma EventsKeys()
    ensures IdEvents.Keys == EnEvents.Keys
  {
  }

  lemma EventsFilled()
    ensures NoEmptyEntry(IdEvents) && NoEmptyEntry(EnEvents)
  {
  }

  lemma EventsLacksBenefits()
    ensures "misc.benefits" !in IdEvents
  {
  }

  lemma CtaKeys()
    ensures IdCta.Keys == EnCta.Keys
  {
  }

  lemma CtaFilled()
    ensures NoEmptyEntry(IdCta) && NoEmptyEntry(EnCta)
  {
  }

  lemma CtaLacksBenefits()
    ensures "misc.benefits" !in IdCta
  {
  }

  lemma PromoKeys()
    ensures IdPromo.Keys == EnPromo.Keys
  {
  }

  lemma PromoFilled()
    ensures NoEmptyEntry(IdPromo) && NoEmptyEntry(EnPromo)
  {
  }

  lemma PromoLacksBenefits()
    ensures "misc.benefits" !in IdPromo
  {
  }

  lemma FooterKeys()
    ensures IdFooter.Keys == EnFooter.Keys
  {
  }

  lemma FooterFilled()
    ensures NoEmptyEntry(IdFooter) && NoEmptyEntry(EnFooter)
  {
  }

  lemma FooterLacksBenefits()
    ensures "misc.benefits" !in IdFooter
  {
  }

  lemma SearchKeys()
    ensures IdSearch.Keys == EnSearch.Keys
  {
  }

  lemma SearchFilled()
    ensures NoEmptyEntry(IdSearch) && NoEmptyEntry(EnSearch)
  {
  }

  lemma SearchLacksBenefits()
    ensures "misc.benefits" !in IdSearch
  {
  }

  lemma BreadcrumbKeys()
    ensures IdBreadcrumb.Keys == EnBreadcrumb.Keys
  {
  }

  lemma BreadcrumbFilled()
    ensures NoEmptyEntry(IdBreadcrumb) && NoEmptyEntry(EnBreadcrumb)
  {
  }

  lemma BreadcrumbLacksBenefits()
    ensures "misc.benefits" !in IdBreadcrumb
  {
  }

  lemma EmptyKeys()
    ensures IdEmpty.Keys == EnEmpty.Keys
  {
  }

  lemma EmptyFilled()
    ensures NoEmptyEntry(IdEmpty) && NoEmptyEntry(EnEmpty)
  {
  }

  lemma EmptyLacksBenefits()
    ensures "misc.benefits" !in IdEmpty
  {
  }

  lemma MiscKeys()
    ensures IdMisc.Keys == EnMisc.Keys
  {
  }

  lemma MiscFilled()
    ensures NoEmptyEntry(IdMisc) && NoEmptyEntry(EnMisc)
  {
  }

  lemma MiscLacksBenefits()
    ensures "misc.benefits" !in IdMisc
  {
  }

  lemma UnionKeys(a: map<string, string>, b: map<string, string>, c: map<string, string>, d: map<string, string>)
    requires a.Keys == c.Keys && b.Keys == d.Keys
    ensures (a + b).Keys == (c + d).Keys
  {
  }

  lemma UnionNoEmpty(a: map<string, string>, b: map<string, string>)
    requires NoEmptyEntry(a) && NoEmptyEntry(b)
    ensures NoEmptyEntry(a + b)
  {
  }

  /** Both locales define the same keys. */
  lemma SameKeys()
    ensures IdTable.Keys == EnTable.Keys
  {
    NavKeys();
    HeroKeys();
    var i1, e1 := IdNav + IdHero, EnNav + EnHero;
    UnionKeys(IdNav, IdHero, EnNav, EnHero);
    FeaturesKeys();
    var i2, e2 := i1 + IdFeatures, e1 + EnFeatures;
    UnionKeys(i1, IdFeatures, e1, EnFeatures);
    ProductsKeys();
    var i3, e3 := i2 + IdProducts, e2 + EnProducts;
    UnionKeys(i2, IdProducts, e2, EnProducts);
    EventsKeys();
    var i4, e4 := i3 + IdEvents, e3 + EnEvents;
    UnionKeys(i3, IdEvents, e3, EnEvents);
    CtaKeys();
    var i5, e5 := i4 + IdCta, e4 + EnCta;
    UnionKeys(i4, IdCta, e4, EnCta);
    PromoKeys();
    var i6, e6 := i5 + IdPromo, e5 + EnPromo;
    UnionKeys(i5, IdPromo, e5, EnPromo);
    FooterKeys();
    var i7, e7 := i6 + IdFooter, e6 + EnFooter;
    UnionKeys(i6, IdFooter, e6, EnFooter);
    SearchKeys();
    var i8, e8 := i7 + IdSearch, e7 + EnSearch;
    UnionKeys(i7, IdSearch, e7, EnSearch);
    BreadcrumbKeys();
    var i9, e9 := i8 + IdBreadcrumb, e8 + EnBreadcrumb;
    UnionKeys(i8, IdBreadcrumb, e8, EnBreadcrumb);
    EmptyKeys();
    var i10, e10 := i9 + IdEmpty, e9 + EnEmpty;
    UnionKeys(i9, IdEmpty, e9, EnEmpty);
    MiscKeys();
    var i11, e11 := i10 + IdMisc, e10 + EnMisc;
    UnionKeys(i10, IdMisc, e10, EnMisc);
  }

  /** No entry of the `id` table is empty. */
  lemma IdHasNoEmptyEntry()
    ensures NoEmptyEntry(IdTable)
  {
    NavFilled();
    HeroFilled();
    var i1 := IdNav + IdHero;
    UnionNoEmpty(IdNav, IdHero);
    FeaturesFilled();
    var i2 := i1 + IdFeatures;
    UnionNoEmpty(i1, IdFeatures);
    ProductsFilled();
    var i3 := i2 + IdProducts;
    UnionNoEmpty(i2, IdProducts);
    EventsFilled();
    var i4 := i3 + IdEvents;
    UnionNoEmpty(i3, IdEvents);
    CtaFilled();
    var i5 := i4 + IdCta;
    UnionNoEmpty(i4, IdCta);
    PromoFilled();
    var i6 := i5 + IdPromo;
    UnionNoEmpty(i5, IdPromo);
    FooterFilled();
    var i7 := i6 + IdFooter;
    UnionNoEmpty(i6, IdFooter);
    SearchFilled();
    var i8 := i7 + IdSearch;
    UnionNoEmpty(i7, IdSearch);
    BreadcrumbFilled();
    var i9 := i8 + IdBreadcrumb;
    UnionNoEmpty(i8, IdBreadcrumb);
    EmptyFilled();
    var i10 := i9 + IdEmpty;
    UnionNoEmpty(i9, IdEmpty);
    MiscFilled();
    var i11 := i10 + IdMisc;
    UnionNoEmpty(i10, IdMisc);
  }

  /** No entry of the `en` table is empty. */
  lemma EnHasNoEmptyEntry()
    ensures NoEmptyEntry(EnTable)
  {
    NavFilled();
    HeroFilled();
    var e1 := EnNav + EnHero;
    UnionNoEmpty(EnNav, EnHero);
    FeaturesFilled();
    var e2 := e1 + EnFeatures;
    UnionNoEmpty(e1, EnFeatures);
    ProductsFilled();
    var e3 := e2 + EnProducts;
    UnionNoEmpty(e2, EnProducts);
    EventsFilled();
    var e4 := e3 + EnEvents;
    UnionNoEmpty(e3, EnEvents);
    CtaFilled();
    var e5 := e4 + EnCta;
    UnionNoEmpty(e4, EnCta);
    PromoFilled();
    var e6 := e5 + EnPromo;
    UnionNoEmpty(e5, EnPromo);
    FooterFilled();
    var e7 := e6 + EnFooter;
    UnionNoEmpty(e6, EnFooter);
    SearchFilled();
    var e8 := e7 + EnSearch;
    UnionNoEmpty(e7, EnSearch);
    BreadcrumbFilled();
    var e9 := e8 + EnBreadcrumb;
    UnionNoEmpty(e8, EnBreadcrumb);
    EmptyFilled();
    var e10 := e9 + EnEmpty;
    UnionNoEmpty(e9, EnEmpty);
    MiscFilled();
    var e11 := e10 + EnMisc;
    UnionNoEmpty(e10, EnMisc);
  }

  /** `misc.benefits` is not a key of the tables. */
  lemma BenefitsNotAKey()
    ensures "misc.benefits" !in IdTable
  {
    NavLacksBenefits();
    HeroLacksBenefits();
    FeaturesLacksBenefits();
    ProductsLacksBenefits();
    EventsLacksBenefits();
    CtaLacksBenefits();
    PromoLacksBenefits();
    FooterLacksBenefits();
    SearchLacksBenefits();
    BreadcrumbLacksBenefits();
    EmptyLacksBenefits();
    MiscLacksBenefits();
  }

  // ---------------------------------------------------------------------
  // lookup

  function Table(l: Locale): map<string, string> {
    match l
    case Id => IdTable
    case En => EnTable
  }

  predicate NoEmptyEntry(table: map<string, string>) {
    forall k | k in table :: table[k] != ""
  }

  /** `table[key] || key`: a missing key and an empty entry both give the
      key itself. */
  function Lookup(table: map<string, string>, key: string): (r: string)
    ensures r == key || (key in table && r == table[key] && r != "")
    ensures key !in table ==> r == key
  {
    if key in table && table[key] != "" then table[key] else key
  }

  /** In a table without empty entries, the lookup gives the entry of
      every key the table has and the key itself for every other. */
  lemma LookupEntryOrKey(table: map<string, string>, key: string)
    requires NoEmptyEntry(table)
    ensures key in table ==> Lookup(table, key) == table[key] && Lookup(table, key) != ""
    ensures key !in table ==> Lookup(table, key) == key
  {
  }

  /** `t(key)` in locale `l`. */
  function Translate(l: Locale, key: string): (r: string)
    ensures r == key || (key in Table(l) && r == Table(l)[key] && r != "")
  {
    Lookup(Table(l), key)
  }

  /** Every key the `id` table has translates to its entry. */
  lemma TranslateIdEntry(key: string)
    requires key in IdTable
    ensures Translate(Id, key) == IdTable[key]
  {
    IdHasNoEmptyEntry();
    LookupEntryOrKey(IdTable, key);
  }

  /** Every key the `en` table has translates to its entry. */
  lemma TranslateEnEntry(key: string)
    requires key in EnTable
    ensures Translate(En, key) == EnTable[key]
  {
    EnHasNoEmptyEntry();
    LookupEntryOrKey(EnTable, key);
  }

  /** The `t` function a component receives from the context. */
  function Translator(l: Locale): string -> string {
    key => Translate(l, key)
  }

  lemma MissingKeyFallsBack(id: map<string, string>, en: map<string, string>, key: string)
    requires id.Keys == en.Keys && key !in id
    ensures Lookup(id, key) == key && Lookup(en, key) == key
  {
    assert key !in en.Keys;
  }

  /** The product page asks for `misc.benefits`, which neither table has,
      so its heading shows the key itself. */
  lemma BenefitsHeadingShowsKey()
    ensures Translate(Id, "misc.benefits") == "misc.benefits"
    ensures Translate(En, "misc.benefits") == "misc.benefits"
  {
    SameKeys();
    BenefitsNotAKey();
    MissingKeyFallsBack(IdTable, EnTable, "misc.benefits");
  }

  // ---------------------------------------------------------------------
  // provider state

  /** The local-storage key the locale is persisted under. */
  const StorageKey: string := "kumoart-language"

  /** The locale after the mount effect has read the stored value: a stored
      `'id'` or `'en'` replaces `current`; anything else, a missing value or
      a failed read leaves it. */
  function LoadedLocale(current: Locale, storage: map<string, string>, readFails: bool): (r: Locale)
    ensures readFails || StorageKey !in storage ==> r == current
    ensures r == current || Code(r) == storage[StorageKey]
  {
    if !readFails && StorageKey in storage && ParseLocale(storage[StorageKey]).Some?
    then ParseLocale(storage[StorageKey]).value
    else current
  }

  /** Only a stored `'id'` or `'en'` changes the locale, and then to it. */
  lemma LoadedLocaleAcceptsOnlyCodes(current: Locale, storage: map<string, string>, readFails: bool)
    ensures LoadedLocale(current, storage, readFails) != current ==>
      !readFails && StorageKey in storage && storage[StorageKey] == Code(LoadedLocale(current, storage, readFails))
    ensures StorageKey in storage && storage[StorageKey] != "id" && storage[StorageKey] != "en" ==>
      LoadedLocale(current, storage, readFails) == current
  {
  }

  /** A locale that was written successfully is the one the next mount
      loads, whatever else storage holds. */
  lemma PersistedLocaleReloads(l: Locale, current: Locale, storage: map<string, string>)
    ensures LoadedLocale(current, storage[StorageKey := Code(l)], false) == l
  {
    ParseCode(l);
  }

  /** The CSS class of the wrapper around the children. */
  function WrapperClass(mounted: bool): string {
    if mounted then "" else "invisible"
  }

  /** `LanguageProvider`: the `language` and `mounted` state and the
      browser's local storage as this page sees it. A storage access that
      throws is an input (`readFails`, `writeFails`); the source logs it and
      carries on. */
  class LanguageProvider {
    var language: Locale
    var mounted: bool
    var storage: map<string, string>

    /** First render: `useState('id')`, `useState(false)`. */
    constructor (storage: map<string, string>)
      ensures language == Id && !mounted && this.storage == storage
    {
      language := Id;
      mounted := false;
      this.storage := storage;
    }

    /** The mount effect: set `mounted`, then load a valid stored locale. */
    method Mount(readFails: bool)
      modifies this
      ensures mounted
      ensures language == LoadedLocale(old(language), old(storage), readFails)
      ensures storage == old(storage)
    {
      mounted := true;
      if !readFails && StorageKey in storage {
        var saved := storage[StorageKey];
        if saved == "id" || saved == "en" {
          language := ParseLocale(saved).value;
        }
      }
    }

    /** `setLanguage(lang)`: the state always changes; the stored copy only
      when the write succeeds. */
    method SetLanguage(lang: Locale, writeFails: bool)
      modifies this
      ensures language == lang && mounted == old(mounted)
      ensures storage == if writeFails then old(storage) else old(storage)[StorageKey := Code(lang)]
    {
      language := lang;
      if !writeFails {
        storage := storage[StorageKey := Code(lang)];
      }
    }

    /** `t(key)` for the current locale. */
    function T(key: string): string
      reads this
    {
      Translate(language, key)
    }

    /** Children are invisible until the mount effect has run. */
    function ChildrenClass(): (r: string)
      reads this
      ensures r == "invisible" <==> !mounted
      ensures mounted ==> r == ""
    {
      WrapperClass(mounted)
    }
  }

  /** `useLanguage()`: the context value, or the error it throws outside a
      provider. */
  function UseLanguage<C>(context: Option<C>): (r: Result<C, string>)
    ensures r.Success? <==> context.Some?
    ensures r.Success? ==> r.value == context.value
  {
    match context
    case Some(c) => Success(c)
    case None => Failure("useLanguage must be used within a LanguageProvider")
  }
}
