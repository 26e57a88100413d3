/** The JSON records the directory's administrative API returns, keeping only
    the fields the extractor reads. */
module Records {
  import opened Results

  /** A user object of `/api/v1/users`. `id` and `profile` may be absent; the
      profile is a string-valued JSON object (`login`, `email`, `firstName`,
      `lastName`, ...), any of whose keys may be absent. */
  datatype User = User(id: Option<string>, profile: Option<map<string, string>>)

  /** The application embedded in an application link (`expand=app`);
      `displayLabel` is its JSON `label` field. */
  datatype App = App(name: string, displayLabel: string, status: string)

  /** A record of `/api/v1/users/{id}/appLinks?expand=app`. */
  datatype UserAppLink = UserAppLink(app: App)

  /** A record of `/api/v1/apps/links?expand=appUser`: the application and the
      `profile.login` of the embedded application user. */
  datatype BulkLink = BulkLink(app: App, login: string)
}
