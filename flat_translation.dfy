/**
  The flat translator of `src/context/language-context.tsx`, the provider the
  application mounts. A key is looked up whole in a flat table of strings; a
  missing entry and an empty one both give back the key.
 */
module FlatTranslation {
  import opened Wrappers
  import opened Languages

  /** `translations[key] || key` */
  function Lookup(translations: map<string, string>, key: string): (r: string)
    ensures r == key <==> key !in translations || translations[key] == "" || translations[key] == key
    ensures r != key ==> key in translations && r == translations[key]
  {
    if key in translations && translations[key] != "" then translations[key] else key
  }

  /** The lookup is flat: only the entry under the whole key matters, dots included. */
  lemma LookupOnlyReadsKey(t1: map<string, string>, t2: map<string, string>, key: string)
    requires key in t1 <==> key in t2
    requires key in t1 ==> t1[key] == t2[key]
    ensures Lookup(t1, key) == Lookup(t2, key)
  {
  }

  /** An empty entry gives the same result as a missing one. */
  lemma EmptyEntryIsMissing(t: map<string, string>, key: string)
    ensures Lookup(t[key := ""], key) == Lookup(t - {key}, key) == key
  {
  }

  /** The context seen by components outside any provider. */
  datatype ContextValue = ContextValue(language: Language, dir: string, translations: map<string, string>, isLoading: bool)

  const DefaultContext := ContextValue(Ar, "rtl", map[], true)

  /** Outside a provider, `t` is the identity and the direction is right to left. */
  lemma DefaultContextIdentity(key: string)
    ensures Lookup(DefaultContext.translations, key) == key
    ensures DefaultContext.dir == Dir(DefaultContext.language) == "rtl"
  {
  }

  /** The local-storage key holding the chosen language. */
  const StorageKey := "language"

  function Stored(storage: map<string, string>): Option<string> {
    if StorageKey in storage then Some(storage[StorageKey]) else None
  }

  class LanguageProvider {
    var language: Language
    var translations: map<string, string>
    var isLoading: bool
    var mounted: bool
    var storage: map<string, string>
    var documentLang: string
    var documentDir: string

    constructor(storage: map<string, string>, documentLang: string, documentDir: string)
      ensures language == Ar && translations == map[] && isLoading && !mounted
      ensures this.storage == storage
      ensures this.documentLang == documentLang && this.documentDir == documentDir
    {
      language := Ar;
      translations := map[];
      isLoading := true;
      mounted := false;
      this.storage := storage;
      this.documentLang := documentLang;
      this.documentDir := documentDir;
    }

    /** `t(key)` */
    function T(key: string): string
      reads this
    {
      Lookup(translations, key)
    }

    /** `dir`, derived from the language. */
    function Direction(): (r: string)
      reads this
      ensures r == "rtl" <==> language == Ar
    {
      Dir(language)
    }

    /**
      The mount effect: a stored `ar` or `en` replaces the language, anything
      else leaves it; once mounted, the document carries the language and direction.
     */
    method Mount()
      modifies this
      ensures ParseLanguage(Stored(old(storage))).Some? ==> language == ParseLanguage(Stored(old(storage))).value
      ensures ParseLanguage(Stored(old(storage))).None? ==> language == old(language)
      ensures mounted && documentLang == Code(language) && documentDir == Dir(language)
      ensures storage == old(storage) && translations == old(translations) && isLoading == old(isLoading)
    {
      var parsed := ParseLanguage(Stored(storage));
      if parsed.Some? {
        language := parsed.value;
      }
      mounted := true;
      documentLang := Code(language);
      documentDir := Dir(language);
    }

    /** The load effect starting a fetch of the current language's table. */
    method BeginLoad()
      modifies this
      ensures isLoading
      ensures language == old(language) && translations == old(translations) && mounted == old(mounted)
      ensures storage == old(storage) && documentLang == old(documentLang) && documentDir == old(documentDir)
    {
      isLoading := true;
    }

    /** The fetch finished: a table replaces the old one; a failure keeps it. Loading ends either way. */
    method CompleteLoad(data: Option<map<string, string>>)
      modifies this
      ensures !isLoading
      ensures translations == if data.Some? then data.value else old(translations)
      ensures language == old(language) && mounted == old(mounted)
      ensures storage == old(storage) && documentLang == old(documentLang) && documentDir == old(documentDir)
    {
      if data.Some? {
        translations := data.value;
      }
      isLoading := false;
    }

    /** `setLanguage`: record and store the language, and set the document's lang and dir to match. */
    method SetLanguage(l: Language)
      modifies this
      ensures language == l
      ensures storage == old(storage)[StorageKey := Code(l)]
      ensures documentLang == Code(l) && documentDir == Dir(l)
      ensures translations == old(translations) && isLoading == old(isLoading) && mounted == old(mounted)
    {
      language := l;
      storage := storage[StorageKey := Code(l)];
      documentLang := Code(l);
      documentDir := Dir(l);
    }
  }

  /** A fresh provider that mounts adopts a valid stored language and otherwise stays Arabic. */
  method MountFresh(storage: map<string, string>) returns (p: LanguageProvider)
    ensures fresh(p)
    ensures p.language == match ParseLanguage(Stored(storage)) case Some(l) => l case None => Ar
    ensures p.Direction() == Dir(p.language)
  {
    p := new LanguageProvider(storage, "", "");
    p.Mount();
  }
}
