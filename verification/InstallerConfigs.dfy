/** `generate_env_content` for the installer's configuration. */
module InstallerConfigs {
  import opened Texts
  import opened EnvFile

  datatype InstallerConfig = InstallerConfig(
    env: string, domain: string, publicUrl: string, postgresDb: string, postgresUser: string,
    postgresPassword: string, jwtSecret: string, restApiSecret: string, nextcloudUrl: string,
    nextcloudFilePath: string, nextcloudUsername: string, nextcloudPassword: string, woocommerceUrl: string,
    woocommerceKey: string, woocommerceSecret: string, timezone: string, currency: string, adminEmail: string,
    storagePath: string, backupPath: string, sslMode: string, port: int)

  function DatabaseUrl(c: InstallerConfig): string
  {
    "postgresql://" + (c.postgresUser + (":" + (c.postgresPassword + ("@postgres:5432/" + c.postgresDb))))
  }

  /** The settings in the order they are printed. */
  function Settings(c: InstallerConfig): seq<Setting>
  {
    [
      Setting("FLOWHUB_ENV", c.env),
      Setting("FLOWHUB_DOMAIN", c.domain),
      Setting("FLOWHUB_PUBLIC_URL", c.publicUrl),
      Setting("FLOWHUB_PORT", IntText(c.port)),
      Setting("FLOWHUB_DATABASE_URL", DatabaseUrl(c)),
      Setting("FLOWHUB_POSTGRES_DB", c.postgresDb),
      Setting("FLOWHUB_POSTGRES_USER", c.postgresUser),
      Setting("FLOWHUB_POSTGRES_PASSWORD", c.postgresPassword),
      Setting("FLOWHUB_JWT_SECRET", c.jwtSecret),
      Setting("FLOWHUB_REST_API_SECRET", c.restApiSecret),
      Setting("FLOWHUB_NEXTCLOUD_URL", c.nextcloudUrl),
      Setting("FLOWHUB_NEXTCLOUD_FILE_PATH", c.nextcloudFilePath),
      Setting("FLOWHUB_NEXTCLOUD_USERNAME", c.nextcloudUsername),
      Setting("FLOWHUB_NEXTCLOUD_PASSWORD", c.nextcloudPassword),
      Setting("FLOWHUB_WOOCOMMERCE_URL", c.woocommerceUrl),
      Setting("FLOWHUB_WOOCOMMERCE_KEY", c.woocommerceKey),
      Setting("FLOWHUB_WOOCOMMERCE_SECRET", c.woocommerceSecret),
      Setting("FLOWHUB_TIMEZONE", c.timezone),
      Setting("FLOWHUB_CURRENCY", c.currency),
      Setting("FLOWHUB_ADMIN_EMAIL", c.adminEmail),
      Setting("FLOWHUB_STORAGE_PATH", c.storagePath),
      Setting("FLOWHUB_BACKUP_PATH", c.backupPath),
      Setting("FLOWHUB_SSL_MODE", c.sslMode),
      Setting("VITE_HANDSONTABLE_LICENSE_KEY", "")
    ]
  }

  /** `generate_env_content`; the clock reading is a parameter. */
  function GenerateEnvContent(c: InstallerConfig, createdAt: string): string { Content(createdAt, Settings(c)) }

  // ---------------------------------------------------------------- the keys

  /** Length, ninth and last character: enough to tell the keys apart. */
  function Shape(key: string): (nat, char, char)
    requires |key| > 8
  {
    (|key|, key[8], key[|key| - 1])
  }

  lemma AppKeys()
    ensures IsKey("FLOWHUB_ENV") && Shape("FLOWHUB_ENV") == (11, 'E', 'V')
    ensures IsKey("FLOWHUB_DOMAIN") && Shape("FLOWHUB_DOMAIN") == (14, 'D', 'N')
    ensures IsKey("FLOWHUB_PUBLIC_URL") && Shape("FLOWHUB_PUBLIC_URL") == (18, 'P', 'L')
    ensures IsKey("FLOWHUB_PORT") && Shape("FLOWHUB_PORT") == (12, 'P', 'T')
  {
  }

  lemma DatabaseKeys()
    ensures IsKey("FLOWHUB_DATABASE_URL") && Shape("FLOWHUB_DATABASE_URL") == (20, 'D', 'L')
    ensures IsKey("FLOWHUB_POSTGRES_DB") && Shape("FLOWHUB_POSTGRES_DB") == (19, 'P', 'B')
    ensures IsKey("FLOWHUB_POSTGRES_USER") && Shape("FLOWHUB_POSTGRES_USER") == (21, 'P', 'R')
    ensures IsKey("FLOWHUB_POSTGRES_PASSWORD") && Shape("FLOWHUB_POSTGRES_PASSWORD") == (25, 'P', 'D')
  {
  }

  lemma SecretKeys()
    ensures IsKey("FLOWHUB_JWT_SECRET") && Shape("FLOWHUB_JWT_SECRET") == (18, 'J', 'T')
    ensures IsKey("FLOWHUB_REST_API_SECRET") && Shape("FLOWHUB_REST_API_SECRET") == (23, 'R', 'T')
  {
  }

  lemma NextcloudKeys()
    ensures IsKey("FLOWHUB_NEXTCLOUD_URL") && Shape("FLOWHUB_NEXTCLOUD_URL") == (21, 'N', 'L')
    ensures IsKey("FLOWHUB_NEXTCLOUD_FILE_PATH") && Shape("FLOWHUB_NEXTCLOUD_FILE_PATH") == (27, 'N', 'H')
    ensures IsKey("FLOWHUB_NEXTCLOUD_USERNAME") && Shape("FLOWHUB_NEXTCLOUD_USERNAME") == (26, 'N', 'E')
    ensures IsKey("FLOWHUB_NEXTCLOUD_PASSWORD") && Shape("FLOWHUB_NEXTCLOUD_PASSWORD") == (26, 'N', 'D')
  {
  }

  lemma WooCommerceKeys()
    ensures IsKey("FLOWHUB_WOOCOMMERCE_URL") && Shape("FLOWHUB_WOOCOMMERCE_URL") == (23, 'W', 'L')
    ensures IsKey("FLOWHUB_WOOCOMMERCE_KEY") && Shape("FLOWHUB_WOOCOMMERCE_KEY") == (23, 'W', 'Y')
    ensures IsKey("FLOWHUB_WOOCOMMERCE_SECRET") && Shape("FLOWHUB_WOOCOMMERCE_SECRET") == (26, 'W', 'T')
  {
  }

  lemma LocaleKeys()
    ensures IsKey("FLOWHUB_TIMEZONE") && Shape("FLOWHUB_TIMEZONE") == (16, 'T', 'E')
    ensures IsKey("FLOWHUB_CURRENCY") && Shape("FLOWHUB_CURRENCY") == (16, 'C', 'Y')
    ensures IsKey("FLOWHUB_ADMIN_EMAIL") && Shape("FLOWHUB_ADMIN_EMAIL") == (19, 'A', 'L')
  {
  }

  lemma StorageKeys()
    ensures IsKey("FLOWHUB_STORAGE_PATH") && Shape("FLOWHUB_STORAGE_PATH") == (20, 'S', 'H')
    ensures IsKey("FLOWHUB_BACKUP_PATH") && Shape("FLOWHUB_BACKUP_PATH") == (19, 'B', 'H')
    ensures IsKey("FLOWHUB_SSL_MODE") && Shape("FLOWHUB_SSL_MODE") == (16, 'S', 'E')
    ensures IsKey("VITE_HANDSONTABLE_LICENSE_KEY") && Shape("VITE_HANDSONTABLE_LICENSE_KEY") == (29, 'D', 'Y')
  {
  }

  const SHAPES := [
    (11, 'E', 'V'), (14, 'D', 'N'), (18, 'P', 'L'), (12, 'P', 'T'), (20, 'D', 'L'), (19, 'P', 'B'),
    (21, 'P', 'R'), (25, 'P', 'D'), (18, 'J', 'T'), (23, 'R', 'T'), (21, 'N', 'L'), (27, 'N', 'H'),
    (26, 'N', 'E'), (26, 'N', 'D'), (23, 'W', 'L'), (23, 'W', 'Y'), (26, 'W', 'T'), (16, 'T', 'E'),
    (16, 'C', 'Y'), (19, 'A', 'L'), (20, 'S', 'H'), (19, 'B', 'H'), (16, 'S', 'E'), (29, 'D', 'Y')
  ]

  lemma KeyFacts(c: InstallerConfig, i: nat)
    requires i < |Settings(c)|
    ensures IsKey(Settings(c)[i].key) && |Settings(c)[i].key| > 8 && Shape(Settings(c)[i].key) == SHAPES[i]
  {
    hide IsKey, Shape, DatabaseUrl, IntText;
    AppKeys();
    DatabaseKeys();
    SecretKeys();
    NextcloudKeys();
    WooCommerceKeys();
    LocaleKeys();
    StorageKeys();
  }

  lemma ShapesDiffer(i: nat, j: nat)
    requires i < j < |SHAPES|
    ensures SHAPES[i] != SHAPES[j]
  {
  }

  lemma KeysAreProper(c: InstallerConfig)
    ensures ProperKeys(Settings(c))
  {
    hide IsKey, Shape, DatabaseUrl, IntText;
    forall i | 0 <= i < |Settings(c)| ensures IsKey(Settings(c)[i].key) {
      KeyFacts(c, i);
    }
    forall i, j | 0 <= i < j < |Settings(c)| ensures Settings(c)[i].key != Settings(c)[j].key {
      KeyFacts(c, i);
      KeyFacts(c, j);
      ShapesDiffer(i, j);
    }
  }

  // ---------------------------------------------------------------- the values

  /** Every text of the configuration is on one line without space around it. */
  predicate PlainConfig(c: InstallerConfig)
  {
    && Plain(c.env) && Plain(c.domain) && Plain(c.publicUrl) && Plain(c.postgresDb) && Plain(c.postgresUser)
    && Plain(c.postgresPassword) && Plain(c.jwtSecret) && Plain(c.restApiSecret) && Plain(c.nextcloudUrl)
    && Plain(c.nextcloudFilePath) && Plain(c.nextcloudUsername) && Plain(c.nextcloudPassword)
    && Plain(c.woocommerceUrl) && Plain(c.woocommerceKey) && Plain(c.woocommerceSecret) && Plain(c.timezone)
    && Plain(c.currency) && Plain(c.adminEmail) && Plain(c.storagePath) && Plain(c.backupPath) && Plain(c.sslMode)
  }

  lemma PlainConcat(a: string, b: string)
    requires OneLine(a) && OneLine(b)
    ensures OneLine(a + b)
  {
    hide IsLineBreak;
  }

  /** The composed database URL is plain if its three parts are. */
  lemma UrlIsPlain(c: InstallerConfig)
    requires Plain(c.postgresUser) && Plain(c.postgresPassword) && Plain(c.postgresDb)
    ensures Plain(DatabaseUrl(c))
  {
    hide IsLineBreak, IsSpace;
    FixedParts();
    PlainConcat("@postgres:5432/", c.postgresDb);
    PlainConcat(c.postgresPassword, "@postgres:5432/" + c.postgresDb);
    PlainConcat(":", c.postgresPassword + ("@postgres:5432/" + c.postgresDb));
    PlainConcat(c.postgresUser, ":" + (c.postgresPassword + ("@postgres:5432/" + c.postgresDb)));
    PlainConcat("postgresql://", c.postgresUser + (":" + (c.postgresPassword + ("@postgres:5432/" + c.postgresDb))));
    var url := DatabaseUrl(c);
    assert url[0] == 'p';
    assert url[|url| - 1] == if c.postgresDb == "" then '/' else c.postgresDb[|c.postgresDb| - 1];
  }

  lemma FixedParts()
    ensures OneLine("postgresql://") && OneLine(":") && OneLine("@postgres:5432/")
    ensures !IsSpace('p') && !IsSpace('/') && Plain("")
  {
  }

  lemma IntTextIsPlain(n: int)
    ensures Plain(IntText(n))
  {
    hide NatText;
    var s := IntText(n);
    assert forall i :: 0 <= i < |s| ==> IsDigit(s[i]) || s[i] == '-';
  }

  lemma SettingsFromTexts(c: InstallerConfig)
    requires PlainConfig(c)
    ensures forall i :: 0 <= i < |Settings(c)| ==> Plain(Settings(c)[i].value)
  {
    hide Plain, IntText, DatabaseUrl;
    FixedParts();
    IntTextIsPlain(c.port);
    UrlIsPlain(c);
  }

  lemma TextsFromSettings(c: InstallerConfig)
    requires forall i :: 0 <= i < |Settings(c)| ==> Plain(Settings(c)[i].value)
    ensures PlainConfig(c)
  {
    hide Plain, IntText, DatabaseUrl;
    var s := Settings(c);
    assert Plain(s[0].value);
    assert Plain(s[1].value);
    assert Plain(s[2].value);
    assert Plain(s[5].value);
    assert Plain(s[6].value);
    assert Plain(s[7].value);
    assert Plain(s[8].value);
    assert Plain(s[9].value);
    assert Plain(s[10].value);
    assert Plain(s[11].value);
    assert Plain(s[12].value);
    assert Plain(s[13].value);
    assert Plain(s[14].value);
    assert Plain(s[15].value);
    assert Plain(s[16].value);
    assert Plain(s[17].value);
    assert Plain(s[18].value);
    assert Plain(s[19].value);
    assert Plain(s[20].value);
    assert Plain(s[21].value);
    assert Plain(s[22].value);
  }

  /** Parsing the generated env text gives back exactly the printed keys and values if and
      only if every text of the configuration is on one line and has no space around it;
      `=`, `#` and empty values included. */
  lemma EnvFileRoundTrip(c: InstallerConfig, createdAt: string)
    requires OneLine(createdAt)
    ensures ParseLines(SplitLines(GenerateEnvContent(c, createdAt))) == MapOf(Settings(c)) <==> PlainConfig(c)
  {
    hide Plain, PlainConfig, Settings, ProperKeys, OneLine, ParseLines, SplitLines, MapOf, Content;
    KeysAreProper(c);
    RoundTripExactlyWhenPlain(createdAt, Settings(c));
    if PlainConfig(c) { SettingsFromTexts(c); }
    if forall i :: 0 <= i < |Settings(c)| ==> Plain(Settings(c)[i].value) { TextsFromSettings(c); }
  }

  /** Every setting can be looked up in the map that comes back. */
  lemma PrintedSettingsAreFound(c: InstallerConfig, createdAt: string, i: nat)
    requires OneLine(createdAt) && PlainConfig(c) && i < |Settings(c)|
    ensures var parsed := ParseLines(SplitLines(GenerateEnvContent(c, createdAt)));
            Settings(c)[i].key in parsed && parsed[Settings(c)[i].key] == Settings(c)[i].value
  {
    hide Plain, PlainConfig, Settings, ProperKeys, OneLine, ParseLines, SplitLines, MapOf, Content;
    KeysAreProper(c);
    EnvFileRoundTrip(c, createdAt);
    MapOfHas(Settings(c), i);
  }

  /** The map that comes back holds the value under the key. */
  predicate Holds(c: InstallerConfig, createdAt: string, key: string, value: string)
  {
    var parsed := ParseLines(SplitLines(GenerateEnvContent(c, createdAt)));
    key in parsed && parsed[key] == value
  }

  lemma SettingHolds(c: InstallerConfig, createdAt: string, i: nat, key: string, value: string)
    requires OneLine(createdAt) && PlainConfig(c)
    requires i < |Settings(c)| && Settings(c)[i] == Setting(key, value)
    ensures Holds(c, createdAt, key, value)
  {
    hide Plain, PlainConfig, Settings, OneLine, ParseLines, SplitLines, Content;
    PrintedSettingsAreFound(c, createdAt, i);
  }

  lemma ApplicationFields(c: InstallerConfig, createdAt: string)
    requires OneLine(createdAt) && PlainConfig(c)
    ensures Holds(c, createdAt, "FLOWHUB_ENV", c.env)
    ensures Holds(c, createdAt, "FLOWHUB_DOMAIN", c.domain)
    ensures Holds(c, createdAt, "FLOWHUB_PUBLIC_URL", c.publicUrl)
    ensures Holds(c, createdAt, "FLOWHUB_PORT", IntText(c.port))
  {
    hide Plain, PlainConfig, OneLine, Holds, DatabaseUrl, IntText;
    SettingHolds(c, createdAt, 0, "FLOWHUB_ENV", c.env);
    SettingHolds(c, createdAt, 1, "FLOWHUB_DOMAIN", c.domain);
    SettingHolds(c, createdAt, 2, "FLOWHUB_PUBLIC_URL", c.publicUrl);
    SettingHolds(c, createdAt, 3, "FLOWHUB_PORT", IntText(c.port));
  }

  lemma DatabaseFields(c: InstallerConfig, createdAt: string)
    requires OneLine(createdAt) && PlainConfig(c)
    ensures Holds(c, createdAt, "FLOWHUB_DATABASE_URL",
                  "postgresql://" + c.postgresUser + ":" + c.postgresPassword + "@postgres:5432/" + c.postgresDb)
    ensures Holds(c, createdAt, "FLOWHUB_POSTGRES_DB", c.postgresDb)
    ensures Holds(c, createdAt, "FLOWHUB_POSTGRES_USER", c.postgresUser)
    ensures Holds(c, createdAt, "FLOWHUB_POSTGRES_PASSWORD", c.postgresPassword)
  {
    hide Plain, PlainConfig, OneLine, Holds, DatabaseUrl, IntText;
    UrlInOrder(c);
    SettingHolds(c, createdAt, 4, "FLOWHUB_DATABASE_URL", DatabaseUrl(c));
    SettingHolds(c, createdAt, 5, "FLOWHUB_POSTGRES_DB", c.postgresDb);
    SettingHolds(c, createdAt, 6, "FLOWHUB_POSTGRES_USER", c.postgresUser);
    SettingHolds(c, createdAt, 7, "FLOWHUB_POSTGRES_PASSWORD", c.postgresPassword);
  }

  lemma SecretFields(c: InstallerConfig, createdAt: string)
    requires OneLine(createdAt) && PlainConfig(c)
    ensures Holds(c, createdAt, "FLOWHUB_JWT_SECRET", c.jwtSecret)
    ensures Holds(c, createdAt, "FLOWHUB_REST_API_SECRET", c.restApiSecret)
  {
    hide Plain, PlainConfig, OneLine, Holds, DatabaseUrl, IntText;
    SettingHolds(c, createdAt, 8, "FLOWHUB_JWT_SECRET", c.jwtSecret);
    SettingHolds(c, createdAt, 9, "FLOWHUB_REST_API_SECRET", c.restApiSecret);
  }

  lemma NextcloudFields(c: InstallerConfig, createdAt: string)
    requires OneLine(createdAt) && PlainConfig(c)
    ensures Holds(c, createdAt, "FLOWHUB_NEXTCLOUD_URL", c.nextcloudUrl)
    ensures Holds(c, createdAt, "FLOWHUB_NEXTCLOUD_FILE_PATH", c.nextcloudFilePath)
    ensures Holds(c, createdAt, "FLOWHUB_NEXTCLOUD_USERNAME", c.nextcloudUsername)
    ensures Holds(c, createdAt, "FLOWHUB_NEXTCLOUD_PASSWORD", c.nextcloudPassword)
  {
    hide Plain, PlainConfig, OneLine, Holds, DatabaseUrl, IntText;
    SettingHolds(c, createdAt, 10, "FLOWHUB_NEXTCLOUD_URL", c.nextcloudUrl);
    SettingHolds(c, createdAt, 11, "FLOWHUB_NEXTCLOUD_FILE_PATH", c.nextcloudFilePath);
    SettingHolds(c, createdAt, 12, "FLOWHUB_NEXTCLOUD_USERNAME", c.nextcloudUsername);
    SettingHolds(c, createdAt, 13, "FLOWHUB_NEXTCLOUD_PASSWORD", c.nextcloudPassword);
  }

  lemma WooCommerceFields(c: InstallerConfig, createdAt: string)
    requires OneLine(createdAt) && PlainConfig(c)
    ensures Holds(c, createdAt, "FLOWHUB_WOOCOMMERCE_URL", c.woocommerceUrl)
    ensures Holds(c, createdAt, "FLOWHUB_WOOCOMMERCE_KEY", c.woocommerceKey)
    ensures Holds(c, createdAt, "FLOWHUB_WOOCOMMERCE_SECRET", c.woocommerceSecret)
  {
    hide Plain, PlainConfig, OneLine, Holds, DatabaseUrl, IntText;
    SettingHolds(c, createdAt, 14, "FLOWHUB_WOOCOMMERCE_URL", c.woocommerceUrl);
    SettingHolds(c, createdAt, 15, "FLOWHUB_WOOCOMMERCE_KEY", c.woocommerceKey);
    SettingHolds(c, createdAt, 16, "FLOWHUB_WOOCOMMERCE_SECRET", c.woocommerceSecret);
  }

  lemma LocaleFields(c: InstallerConfig, createdAt: string)
    requires OneLine(createdAt) && PlainConfig(c)
    ensures Holds(c, createdAt, "FLOWHUB_TIMEZONE", c.timezone)
    ensures Holds(c, createdAt, "FLOWHUB_CURRENCY", c.currency)
    ensures Holds(c, createdAt, "FLOWHUB_ADMIN_EMAIL", c.adminEmail)
  {
    hide Plain, PlainConfig, OneLine, Holds, DatabaseUrl, IntText;
    SettingHolds(c, createdAt, 17, "FLOWHUB_TIMEZONE", c.timezone);
    SettingHolds(c, createdAt, 18, "FLOWHUB_CURRENCY", c.currency);
    SettingHolds(c, createdAt, 19, "FLOWHUB_ADMIN_EMAIL", c.adminEmail);
  }

  lemma StorageFields(c: InstallerConfig, createdAt: string)
    requires OneLine(createdAt) && PlainConfig(c)
    ensures Holds(c, createdAt, "FLOWHUB_STORAGE_PATH", c.storagePath)
    ensures Holds(c, createdAt, "FLOWHUB_BACKUP_PATH", c.backupPath)
    ensures Holds(c, createdAt, "FLOWHUB_SSL_MODE", c.sslMode)
    ensures Holds(c, createdAt, "VITE_HANDSONTABLE_LICENSE_KEY", "")
  {
    hide Plain, PlainConfig, OneLine, Holds, DatabaseUrl, IntText;
    SettingHolds(c, createdAt, 20, "FLOWHUB_STORAGE_PATH", c.storagePath);
    SettingHolds(c, createdAt, 21, "FLOWHUB_BACKUP_PATH", c.backupPath);
    SettingHolds(c, createdAt, 22, "FLOWHUB_SSL_MODE", c.sslMode);
    SettingHolds(c, createdAt, 23, "VITE_HANDSONTABLE_LICENSE_KEY", "");
  }

  lemma UrlInOrder(c: InstallerConfig)
    ensures DatabaseUrl(c) ==
            "postgresql://" + c.postgresUser + ":" + c.postgresPassword + "@postgres:5432/" + c.postgresDb
  {
  }

  /** Every key leads back to its own field: reading the generated text, with every text of
      the configuration plain, gives the configuration under the names the server looks for. */
  lemma KeysLeadToTheirFields(c: InstallerConfig, createdAt: string)
    requires OneLine(createdAt) && PlainConfig(c)
    ensures Holds(c, createdAt, "FLOWHUB_ENV", c.env)
    ensures Holds(c, createdAt, "FLOWHUB_DOMAIN", c.domain)
    ensures Holds(c, createdAt, "FLOWHUB_PUBLIC_URL", c.publicUrl)
    ensures Holds(c, createdAt, "FLOWHUB_PORT", IntText(c.port))
    ensures Holds(c, createdAt, "FLOWHUB_DATABASE_URL",
                  "postgresql://" + c.postgresUser + ":" + c.postgresPassword + "@postgres:5432/" + c.postgresDb)
    ensures Holds(c, createdAt, "FLOWHUB_POSTGRES_DB", c.postgresDb)
    ensures Holds(c, createdAt, "FLOWHUB_POSTGRES_USER", c.postgresUser)
    ensures Holds(c, createdAt, "FLOWHUB_POSTGRES_PASSWORD", c.postgresPassword)
    ensures Holds(c, createdAt, "FLOWHUB_JWT_SECRET", c.jwtSecret)
    ensures Holds(c, createdAt, "FLOWHUB_REST_API_SECRET", c.restApiSecret)
    ensures Holds(c, createdAt, "FLOWHUB_NEXTCLOUD_URL", c.nextcloudUrl)
    ensures Holds(c, createdAt, "FLOWHUB_NEXTCLOUD_FILE_PATH", c.nextcloudFilePath)
    ensures Holds(c, createdAt, "FLOWHUB_NEXTCLOUD_USERNAME", c.nextcloudUsername)
    ensures Holds(c, createdAt, "FLOWHUB_NEXTCLOUD_PASSWORD", c.nextcloudPassword)
    ensures Holds(c, createdAt, "FLOWHUB_WOOCOMMERCE_URL", c.woocommerceUrl)
    ensures Holds(c, createdAt, "FLOWHUB_WOOCOMMERCE_KEY", c.woocommerceKey)
    ensures Holds(c, createdAt, "FLOWHUB_WOOCOMMERCE_SECRET", c.woocommerceSecret)
    ensures Holds(c, createdAt, "FLOWHUB_TIMEZONE", c.timezone)
    ensures Holds(c, createdAt, "FLOWHUB_CURRENCY", c.currency)
    ensures Holds(c, createdAt, "FLOWHUB_ADMIN_EMAIL", c.adminEmail)
    ensures Holds(c, createdAt, "FLOWHUB_STORAGE_PATH", c.storagePath)
    ensures Holds(c, createdAt, "FLOWHUB_BACKUP_PATH", c.backupPath)
    ensures Holds(c, createdAt, "FLOWHUB_SSL_MODE", c.sslMode)
    ensures Holds(c, createdAt, "VITE_HANDSONTABLE_LICENSE_KEY", "")
  {
    hide Plain, PlainConfig, OneLine, Holds, DatabaseUrl, IntText;
    ApplicationFields(c, createdAt);
    DatabaseFields(c, createdAt);
    SecretFields(c, createdAt);
    NextcloudFields(c, createdAt);
    WooCommerceFields(c, createdAt);
    LocaleFields(c, createdAt);
    StorageFields(c, createdAt);
  }
}
