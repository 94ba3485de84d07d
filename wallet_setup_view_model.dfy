/**
 * Wallet setup over the encrypted key-value store: classifying the stored seed, storing a new
 * or imported wallet without ever overwriting an existing seed, and loading the
 * configuration the wallet is opened with.
 */
module WalletSetup {
  import opened Wrappers
  import Report

  /** The backup entries of the store. */
  datatype BackupKey = HasBackup | HasSeed | HasSeedPhrase | BirthdayHeight | SeedPhrase | Seed
    | ViewingKey | PublicKey

  /** A stored value. Heights are stored as numbers, keys and phrases as characters. */
  datatype Stored = Flag(b: bool) | Number(n: int) | Chars(chars: string) | Bytes(bytes: seq<int>)

  type Store = map<BackupKey, Stored>

  datatype UnifiedViewingKey = UnifiedViewingKey(extfvk: string, extpub: string)

  datatype WalletSetupState = SeedWithBackup | SeedWithoutBackup | NoSeed

  /** The ways setup fails. */
  datatype SetupError
    = SeedAlreadyExists        // the `check` in `storeWallet`
    | InvalidSeedPhrase        // the mnemonic cannot be turned into a seed
    | DerivationFailed         // deriving the viewing key from the seed threw
    | MissingViewingKey        // no viewing key is stored and none can be recovered
    | MissingBirthday          // no birthday is stored and no checkpoint can be loaded

  /** `getBoolean`: false for a missing entry. */
  predicate GetBoolean(box: Store, key: BackupKey) {
    key in box && box[key].Flag? && box[key].b
  }

  function GetChars(box: Store, key: BackupKey): (r: Option<string>)
    ensures r.Some? <==> key in box && box[key].Chars?
  {
    if key in box && box[key].Chars? then Some(box[key].chars) else None
  }

  function GetNumber(box: Store, key: BackupKey): (r: Option<int>)
    ensures r.Some? <==> key in box && box[key].Number?
  {
    if key in box && box[key].Number? then Some(box[key].n) else None
  }

  function GetBytes(box: Store, key: BackupKey): (r: Option<seq<int>>)
    ensures r.Some? <==> key in box && box[key].Bytes?
  {
    if key in box && box[key].Bytes? then Some(box[key].bytes) else None
  }

  /** `checkSeed`: backed up first, then a seed without backup, else none. */
  function CheckSeed(box: Store): (r: WalletSetupState)
    ensures r == SeedWithBackup <==> GetBoolean(box, HasBackup)
    ensures r == SeedWithoutBackup <==> !GetBoolean(box, HasBackup) && GetBoolean(box, HasSeed)
    ensures r == NoSeed <==> !GetBoolean(box, HasBackup) && !GetBoolean(box, HasSeed)
  {
    if GetBoolean(box, HasBackup) then SeedWithBackup
    else if GetBoolean(box, HasSeed) then SeedWithoutBackup
    else NoSeed
  }

  /** `loadBirthdayHeight`: the stored birthday, if any. */
  function LoadBirthdayHeight(box: Store): (r: Option<int>)
    ensures r.None? <==> !(BirthdayHeight in box && box[BirthdayHeight].Number?)
    ensures r.Some? ==> box[BirthdayHeight] == Number(r.value)
  {
    GetNumber(box, BirthdayHeight)
  }

  /** `loadUnifiedViewingKey`: both key halves, or null when either is missing. */
  function LoadUnifiedViewingKey(box: Store): (r: Option<UnifiedViewingKey>)
    ensures r.None? <==> GetChars(box, ViewingKey).None? || GetChars(box, PublicKey).None?
    ensures r.Some? ==> box[ViewingKey] == Chars(r.value.extfvk) && box[PublicKey] == Chars(r.value.extpub)
  {
    var extfvk := GetChars(box, ViewingKey);
    var extpub := GetChars(box, PublicKey);
    if extfvk.None? || extpub.None? then None
    else Some(UnifiedViewingKey(extfvk.value, extpub.value))
  }

  // The writes of the `store*` helpers, as functions of the store.

  function WithBirthday(box: Store, birthday: int): Store {
    box[BirthdayHeight := Number(birthday)]
  }

  function WithSeedPhrase(box: Store, seedPhrase: string): Store {
    box[SeedPhrase := Chars(seedPhrase)][HasSeedPhrase := Flag(true)]
  }

  function WithSeed(box: Store, seed: seq<int>): Store {
    box[Seed := Bytes(seed)][HasSeed := Flag(true)]
  }

  function WithViewingKey(box: Store, vk: UnifiedViewingKey): Store {
    box[ViewingKey := Chars(vk.extfvk)][PublicKey := Chars(vk.extpub)]
  }

  /** The store after a complete `storeWallet`, in the source's order of writes. */
  function StoredWallet(box: Store, birthday: int, seedPhrase: string, seed: seq<int>, vk: UnifiedViewingKey): Store {
    WithViewingKey(WithSeed(WithSeedPhrase(WithBirthday(box, birthday), seedPhrase), seed), vk)
  }

  /**
   * After a complete store every part of the wallet reads back: the birthday, the phrase
   * and the seed with their flags, and the viewing key; and the store now reports a seed.
   */
  lemma StoredWalletReadsBack(box: Store, birthday: int, seedPhrase: string, seed: seq<int>, vk: UnifiedViewingKey)
    ensures var after := StoredWallet(box, birthday, seedPhrase, seed, vk);
      LoadBirthdayHeight(after) == Some(birthday)
      && GetChars(after, SeedPhrase) == Some(seedPhrase) && GetBoolean(after, HasSeedPhrase)
      && GetBytes(after, Seed) == Some(seed) && GetBoolean(after, HasSeed)
      && LoadUnifiedViewingKey(after) == Some(vk)
      && CheckSeed(after) != NoSeed
      && (GetBoolean(after, HasBackup) <==> GetBoolean(box, HasBackup))
  {
    var after := StoredWallet(box, birthday, seedPhrase, seed, vk);
    assert after[BirthdayHeight] == Number(birthday);
    assert after[HasSeed] == Flag(true);
    assert after[ViewingKey] == Chars(vk.extfvk) && after[PublicKey] == Chars(vk.extpub);
  }

  /** A store only adds the wallet's entries: every other entry is kept. */
  lemma StoredWalletKeepsOthers(box: Store, birthday: int, seedPhrase: string, seed: seq<int>,
    vk: UnifiedViewingKey, key: BackupKey)
    requires key !in {BirthdayHeight, SeedPhrase, HasSeedPhrase, Seed, HasSeed, ViewingKey, PublicKey}
    ensures key in StoredWallet(box, birthday, seedPhrase, seed, vk) <==> key in box
    ensures key in box ==> StoredWallet(box, birthday, seedPhrase, seed, vk)[key] == box[key]
  {
  }

  /** The result of `loadConfig`, the parts of `Initializer.Config` it sets. */
  datatype Config = Config(vk: UnifiedViewingKey, birthdayHeight: int, host: string, port: int, overwriteVks: bool)

  /** `storeWallet` and `onMissingViewingKey` share the derivation; it fails by throwing. */
  type Derivation = seq<int> -> Option<UnifiedViewingKey>

  /** The viewing key derived from the stored seed, if there is a seed and derivation succeeds. */
  function Recovered(box: Store, derive: Derivation): (r: Option<UnifiedViewingKey>)
    ensures r.Some? ==> GetBytes(box, Seed).Some? && r == derive(GetBytes(box, Seed).value)
    ensures GetBytes(box, Seed).Some? ==> r == derive(GetBytes(box, Seed).value)
  {
    match GetBytes(box, Seed)
    case Some(seed) => derive(seed)
    case None => None
  }

  /** Storing a recovered key makes it load, and leaves the birthday as it was. */
  lemma RecoveredKeyLoads(box: Store, vk: UnifiedViewingKey)
    ensures LoadUnifiedViewingKey(WithViewingKey(box, vk)) == Some(vk)
    ensures LoadBirthdayHeight(WithViewingKey(box, vk)) == LoadBirthdayHeight(box)
  {
    var after := WithViewingKey(box, vk);
    assert after[ViewingKey] == Chars(vk.extfvk) && after[PublicKey] == Chars(vk.extpub);
  }

  class WalletSetupViewModel {
    var lockBox: Store

    constructor(box: Store)
      ensures lockBox == box
    {
      lockBox := box;
    }

    /** `storeBirthday` */
    method StoreBirthday(birthday: int)
      modifies this
      ensures lockBox == WithBirthday(old(lockBox), birthday)
    {
      lockBox := lockBox[BirthdayHeight := Number(birthday)];
    }

    /** `storeSeedPhrase`: the phrase, then its flag. */
    method StoreSeedPhrase(seedPhrase: string)
      modifies this
      ensures lockBox == WithSeedPhrase(old(lockBox), seedPhrase)
    {
      lockBox := lockBox[SeedPhrase := Chars(seedPhrase)];
      lockBox := lockBox[HasSeedPhrase := Flag(true)];
    }

    /** `storeSeed`: the seed, then its flag. */
    method StoreSeed(seed: seq<int>)
      modifies this
      ensures lockBox == WithSeed(old(lockBox), seed)
    {
      lockBox := lockBox[Seed := Bytes(seed)];
      lockBox := lockBox[HasSeed := Flag(true)];
    }

    /** `storeUnifiedViewingKey`: both halves. */
    method StoreUnifiedViewingKey(vk: UnifiedViewingKey)
      modifies this
      ensures lockBox == WithViewingKey(old(lockBox), vk)
    {
      lockBox := lockBox[ViewingKey := Chars(vk.extfvk)];
      lockBox := lockBox[PublicKey := Chars(vk.extpub)];
    }

    /**
     * `storeWallet`: refuses before any write when a seed is already flagged; otherwise
     * stores the birthday, then (once the seed and viewing key are derived) the phrase, the
     * seed and the viewing key. A failed derivation leaves only the birthday written.
     */
    method StoreWallet(seedPhrase: string, birthday: int, toSeed: string -> Option<seq<int>>, derive: Derivation)
      returns (r: Result<UnifiedViewingKey, SetupError>)
      modifies this
      ensures GetBoolean(old(lockBox), HasSeed) ==> r == Failure(SeedAlreadyExists) && lockBox == old(lockBox)
      ensures !GetBoolean(old(lockBox), HasSeed) && toSeed(seedPhrase).None? ==>
        (r == Failure(InvalidSeedPhrase) && lockBox == WithBirthday(old(lockBox), birthday))
      ensures !GetBoolean(old(lockBox), HasSeed) && toSeed(seedPhrase).Some? && derive(toSeed(seedPhrase).value).None? ==>
        (r == Failure(DerivationFailed) && lockBox == WithBirthday(old(lockBox), birthday))
      ensures !GetBoolean(old(lockBox), HasSeed) && toSeed(seedPhrase).Some? && derive(toSeed(seedPhrase).value).Some? ==>
        r == Success(derive(toSeed(seedPhrase).value).value)
      ensures r.Success? ==>
        (!GetBoolean(old(lockBox), HasSeed) && toSeed(seedPhrase).Some?
         && derive(toSeed(seedPhrase).value) == Some(r.value)
         && lockBox == StoredWallet(old(lockBox), birthday, seedPhrase, toSeed(seedPhrase).value, r.value))
    {
      if GetBoolean(lockBox, HasSeed) {
        return Failure(SeedAlreadyExists);
      }
      StoreBirthday(birthday);
      var bip39Seed := toSeed(seedPhrase);
      if bip39Seed.None? {
        return Failure(InvalidSeedPhrase);
      }
      var viewingKey := derive(bip39Seed.value);
      if viewingKey.None? {
        return Failure(DerivationFailed);
      }
      StoreSeedPhrase(seedPhrase);
      StoreSeed(bip39Seed.value);
      StoreUnifiedViewingKey(viewingKey.value);
      return Success(viewingKey.value);
    }

    /**
     * `onMissingViewingKey`: derives the key from the stored seed and stores it; without a
     * seed, or when derivation fails, reports the missing key and fails. `keyNames` is the
     * list of entry names of the preference file the source reads for the report.
     */
    method OnMissingViewingKey(derive: Derivation, missingKeys: string, keyNames: string)
      returns (r: Result<UnifiedViewingKey, SetupError>, issue: Option<Report.Issue>)
      modifies this
      ensures var seed := GetBytes(old(lockBox), Seed);
        var recovered := Recovered(old(lockBox), derive);
        (recovered.Some? ==>
          (r == Success(recovered.value) && issue.None? && lockBox == WithViewingKey(old(lockBox), recovered.value)))
        && (recovered.None? ==>
          (r == Failure(MissingViewingKey) && lockBox == old(lockBox)
           && issue == Some(Report.MissingViewkey(seed.Some?, missingKeys, keyNames,
                GetChars(old(lockBox), ViewingKey).Some?))))
    {
      var recoveryViewingKey: Option<UnifiedViewingKey> := None;
      var ableToLoadSeed := false;
      var seed := GetBytes(lockBox, Seed);
      if seed.Some? {
        ableToLoadSeed := true;
        recoveryViewingKey := derive(seed.value);
      }
      if recoveryViewingKey.Some? {
        StoreUnifiedViewingKey(recoveryViewingKey.value);
        return Success(recoveryViewingKey.value), None;
      }
      issue := Some(Report.MissingViewkey(ableToLoadSeed, missingKeys, keyNames, GetChars(lockBox, ViewingKey).Some?));
      return Failure(MissingViewingKey), issue;
    }

    /**
     * `loadConfig`: the stored viewing key, else a recovered one (and then the keys are to
     * be overwritten); the stored birthday, else the latest checkpoint (`nearestBirthday`,
     * absent when loading it throws); the server from the preferences, else the defaults.
     */
    method LoadConfig(derive: Derivation, nearestBirthday: Option<int>, prefHost: Option<string>,
      prefPort: Option<int>, defaultHost: string, defaultPort: int, missingKeys: string, keyNames: string)
      returns (r: Result<Config, SetupError>)
      modifies this
      ensures LoadUnifiedViewingKey(old(lockBox)).Some? ==> lockBox == old(lockBox)
      ensures LoadUnifiedViewingKey(old(lockBox)).None? && Recovered(old(lockBox), derive).None? ==>
        lockBox == old(lockBox)
      ensures LoadUnifiedViewingKey(old(lockBox)).None? && Recovered(old(lockBox), derive).Some? ==>
        lockBox == WithViewingKey(old(lockBox), Recovered(old(lockBox), derive).value)
      ensures r == Failure(MissingViewingKey) <==>
        LoadUnifiedViewingKey(old(lockBox)).None? && Recovered(old(lockBox), derive).None?
      ensures r == Failure(MissingBirthday) <==>
        ((LoadUnifiedViewingKey(old(lockBox)).Some? || Recovered(old(lockBox), derive).Some?)
         && LoadBirthdayHeight(old(lockBox)).None? && nearestBirthday.None?)
      ensures r.Failure? ==> r.error == MissingViewingKey || r.error == MissingBirthday
      ensures r.Success? ==> (r.value.overwriteVks <==> LoadUnifiedViewingKey(old(lockBox)).None?)
      ensures r.Success? ==> LoadUnifiedViewingKey(lockBox) == Some(r.value.vk)
      ensures r.Success? && LoadUnifiedViewingKey(old(lockBox)).Some? ==>
        r.value.vk == LoadUnifiedViewingKey(old(lockBox)).value
      ensures r.Success? ==> r.value.host == prefHost.GetOr(defaultHost) && r.value.port == prefPort.GetOr(defaultPort)
      ensures r.Success? ==>
        r.value.birthdayHeight == (if LoadBirthdayHeight(old(lockBox)).Some? then LoadBirthdayHeight(old(lockBox)).value
          else nearestBirthday.GetOr(0))
    {
      var overwriteVks := false;
      var vk := LoadUnifiedViewingKey(lockBox);
      if vk.None? {
        var recovered, _ := OnMissingViewingKey(derive, missingKeys, keyNames);
        if recovered.Failure? {
          return Failure(recovered.error);
        }
        RecoveredKeyLoads(old(lockBox), recovered.value);
        overwriteVks := true;
        vk := Some(recovered.value);
      }
      var birthdayHeight := LoadBirthdayHeight(lockBox);
      if birthdayHeight.None? {
        if nearestBirthday.None? {
          return Failure(MissingBirthday);
        }
        birthdayHeight := nearestBirthday;
      }
      var host := prefHost.GetOr(defaultHost);
      var port := prefPort.GetOr(defaultPort);
      return Success(Config(vk.value, birthdayHeight.value, host, port, overwriteVks));
    }

    /**
     * `importWallet`: stores the phrase with the requested birthday, else the latest
     * checkpoint, and opens the stored wallet's configuration.
     */
    method ImportWallet(seedPhrase: string, birthdayHeight: Option<int>, nearestBirthday: int,
      toSeed: string -> Option<seq<int>>, derive: Derivation, prefHost: Option<string>, prefPort: Option<int>,
      defaultHost: string, defaultPort: int)
      returns (r: Result<Config, SetupError>)
      modifies this
      ensures GetBoolean(old(lockBox), HasSeed) ==> r == Failure(SeedAlreadyExists) && lockBox == old(lockBox)
      ensures !GetBoolean(old(lockBox), HasSeed) && toSeed(seedPhrase).None? ==>
        (r == Failure(InvalidSeedPhrase) && lockBox == WithBirthday(old(lockBox), birthdayHeight.GetOr(nearestBirthday)))
      ensures !GetBoolean(old(lockBox), HasSeed) && toSeed(seedPhrase).Some? && derive(toSeed(seedPhrase).value).None? ==>
        (r == Failure(DerivationFailed) && lockBox == WithBirthday(old(lockBox), birthdayHeight.GetOr(nearestBirthday)))
      ensures !GetBoolean(old(lockBox), HasSeed) && toSeed(seedPhrase).Some? && derive(toSeed(seedPhrase).value).Some? ==>
        r.Success? && r.value.vk == derive(toSeed(seedPhrase).value).value
      ensures r.Success? ==>
        (r.value.birthdayHeight == birthdayHeight.GetOr(nearestBirthday) && !r.value.overwriteVks
         && toSeed(seedPhrase).Some? && Some(r.value.vk) == derive(toSeed(seedPhrase).value)
         && lockBox == StoredWallet(old(lockBox), birthdayHeight.GetOr(nearestBirthday), seedPhrase,
              toSeed(seedPhrase).value, r.value.vk))
    {
      var birthday := birthdayHeight.GetOr(nearestBirthday);
      var stored := StoreWallet(seedPhrase, birthday, toSeed, derive);
      if stored.Failure? {
        return Failure(stored.error);
      }
      ghost var afterStore := lockBox;
      StoredWalletReadsBack(old(lockBox), birthday, seedPhrase, toSeed(seedPhrase).value, stored.value);
      r := LoadConfig(derive, Some(nearestBirthday), prefHost, prefPort, defaultHost, defaultPort, "", "");
      assert lockBox == afterStore;
    }
  }

  /** A second store after a complete one is refused: the seed flag is set. */
  lemma SecondStoreIsRefused(box: Store, birthday: int, seedPhrase: string, seed: seq<int>, vk: UnifiedViewingKey)
    ensures GetBoolean(StoredWallet(box, birthday, seedPhrase, seed, vk), HasSeed)
  {
    StoredWalletReadsBack(box, birthday, seedPhrase, seed, vk);
  }
}
