/**
 * IotdbConnectionSettings: an immutable value object holding where the IoTDB
 * server is and, optionally, how to authenticate against it.
 */
module IotdbSettings {
  import opened JavaText

  /** The authentication mode the settings can announce (IotdbAuthMode.USERNAME_PASSWORD). */
  datatype AuthMode = UsernamePassword

  /** A Java `int`. */
  type Int32 = x: int | -0x8000_0000 <= x < 0x8000_0000

  /**
   * Host, port and database name are final fields; username, password and
   * authMode are null unless the settings were built with credentials.
   */
  datatype ConnectionSettings = ConnectionSettings(
    iotdbDbHost: string,
    iotdbPort: Int32,
    databaseName: string,
    username: Option<string>,
    password: Option<string>,
    authMode: Option<AuthMode>)

  /** The three-argument constructor: no credentials, no auth mode. */
  function WithoutCredentials(host: string, port: Int32, databaseName: string): (s: ConnectionSettings)
    ensures s.iotdbDbHost == host && s.iotdbPort == port && s.databaseName == databaseName
    ensures s.username.None? && s.password.None? && s.authMode.None?
  {
    ConnectionSettings(host, port, databaseName, None, None, None)
  }

  /**
   * The five-argument constructor: delegates to the three-argument one, then
   * sets the credentials as given (null included) and the auth mode.
   */
  function WithCredentials(host: string, port: Int32, databaseName: string,
                           username: Option<string>, password: Option<string>): (s: ConnectionSettings)
    ensures s.username == username && s.password == password
    ensures s.authMode == Some(UsernamePassword)
    ensures s == WithoutCredentials(host, port, databaseName).(
                   username := username, password := password, authMode := Some(UsernamePassword))
  {
    var base := WithoutCredentials(host, port, databaseName);
    base.(username := username, password := password, authMode := Some(UsernamePassword))
  }

  /**
   * The static factory `from(host, port, database, username, password)`; it
   * checks neither credential for null.
   */
  function From(host: string, port: Int32, databaseName: string,
                username: Option<string>, password: Option<string>): (s: ConnectionSettings)
    ensures s.iotdbDbHost == host && s.iotdbPort == port && s.databaseName == databaseName
    ensures s.username == username && s.password == password
    ensures s.authMode == Some(UsernamePassword)
  {
    WithCredentials(host, port, databaseName, username, password)
  }

  /** Settings carry credentials exactly when they announce username/password authentication. */
  predicate HasCredentialsIffAuthMode(s: ConnectionSettings) {
    (s.username.Some? && s.password.Some?) <==> s.authMode == Some(UsernamePassword)
  }

  /**
   * Every settings object `from` builds announces USERNAME_PASSWORD and
   * carries exactly the credentials given, and adds nothing else to the
   * plain settings; only the private three-argument form has no auth mode.
   */
  lemma FromAlwaysSetsAuthMode(host: string, port: Int32, databaseName: string,
                               username: Option<string>, password: Option<string>)
    ensures WithoutCredentials(host, port, databaseName).authMode.None?
    ensures var s := From(host, port, databaseName, username, password);
            s.authMode == Some(UsernamePassword) && s.username == username && s.password == password
    ensures From(host, port, databaseName, username, password).(
              username := None, password := None, authMode := None)
            == WithoutCredentials(host, port, databaseName)
    ensures HasCredentialsIffAuthMode(From(host, port, databaseName, username, password))
            <==> username.Some? && password.Some?
  {
  }

  /** A null username or password still yields settings that announce username/password authentication. */
  lemma NullCredentialsStillSetAuthMode(host: string, port: Int32, databaseName: string, password: Option<string>)
    ensures var s := From(host, port, databaseName, None, password);
            s.authMode == Some(UsernamePassword) && s.username.None? && !HasCredentialsIffAuthMode(s)
  {
  }
}
