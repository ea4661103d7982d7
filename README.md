# LogDash startup dashboard — a verified model of its core

LogDash is a dashboard shown at start-up, with a Windows (C#/WPF) and a
macOS (Swift/SwiftUI) side. It greets the user according to the hour and
then leads to one of two screens: setup when no password is stored, login
otherwise. A shared lockout policy guards the login: five wrong passwords
arm a fifteen-minute lockout, and only a successful login (a reset) clears
it. Once in, the dashboard shows the installed applications and the
now-playing track. This project models that core in Dafny, platform by
platform, and proves what each part promises.

Files and modules:

- `text.dfy` (`Text`): `Option`, decimal rendering, split and join, trimming,
  suffixes and the string order used for sorting.
- `security_policy.dfy` (`SecurityPolicy`): the lockout state machine shared
  by both `SecurityPolicyService` classes, as pure functions plus a class.
- `login_gate.dfy` (`LoginGate`): what one login attempt decides, the minute
  counts and the messages of each platform.
- `windows_credentials.dfy`, `macos_credentials.dfy`: the credential locker
  and the keychain as values, with the two security services as classes.
- `windows_login.dfy`, `macos_login.dfy`, `setup.dfy`, `greeting.dfy`: the
  login, setup and welcome view models.
- `navigation.dfy`: the route Welcome → Setup | Login → Dashboard, and both
  `MainViewModel`s.
- `windows_apps.dfy`, `macos_apps.dfy`: the registry scan and the
  application-folder scan.
- `applescript.dfy`, `macos_media.dfy`, `windows_media.dfy`: the now-playing
  track on each platform.
- `windows_settings.dfy`: the registry-backed settings.
- `converters.dfy`, `relay_command.dfy`: the WPF converters and commands.

Conventions:

- The clock is whole seconds, `now: nat`, passed to every operation that
  reads it.
- The hour of the local clock is passed to the welcome view model.
- Results of asynchronous work (a registry scan, a folder listing, an
  AppleScript answer, a media session read) are parameters.
- Each awaited or dispatched step completes within the one call that
  models it.
- Events and callbacks are the methods' boolean results, or logs kept in a
  sequence field (`reported`, `raised`, `calls`).

## Model

| member | source | states |
|---|---|---|
| SecurityPolicy.InitialState | Windows/Services/SecurityPolicyService.cs:16-20 | a fresh service has no failures, is unlocked at every time, has 5 attempts left and satisfies the invariant |
| SecurityPolicy.Locked | Windows/Services/SecurityPolicyService.cs:20 | the sentinel expiry never locks, and a lockout always has at least one second left |
| SecurityPolicy.Recorded | Windows/Services/SecurityPolicyService.cs:22-29 | one more failure; from the fifth on the service is locked now and unlocked 900 s later, below it the expiry is kept |
| SecurityPolicy.Cleared | Windows/Services/SecurityPolicyService.cs:31-35 | no failures, the sentinel expiry, and unlocked at every time |
| SecurityPolicy.RecordCounts | Windows/Services/SecurityPolicyService.cs:22-29 | a failure adds exactly one to the count; below 5 it leaves the expiry alone, from 5 on it sets the expiry to now + 900 s |
| SecurityPolicy.LockoutWindow | Windows/Services/SecurityPolicyService.cs:22-29 | a failure reaching the threshold at t locks exactly on [t, t + 900 s), also after an earlier lockout has expired |
| SecurityPolicy.ResetUnlocks | Windows/Services/SecurityPolicyService.cs:31-35 | a reset restores the initial state from any state and unlocks at every time |
| SecurityPolicy.OperationsKeepConsistent | macOS/Services/SecurityPolicyService.swift:18-28 | recording a failure and resetting both keep the invariant "sentinel expiry iff count below 5" |
| SecurityPolicy.LockedNeedsThreshold | macOS/Services/SecurityPolicyService.swift:14-23 | in a consistent state a lockout implies at least 5 failures, and a failure that does not lock leaves at least one attempt |
| SecurityPolicy.FailuresFromFresh | macOS/Services/SecurityPolicyService.swift:18-23 | from a fresh service k failures give count k; the expiry is the sentinel for k < 5, else 900 s after the last failure |
| SecurityPolicy.LockedExactlyFromFifth | macOS/Services/SecurityPolicyService.swift:14-23 | from a fresh service, the service is locked at or after the last failure iff there were 5 or more and less than 900 s have passed; the attempts left are max(0, 5 − k) |
| SecurityPolicy.SecurityPolicyService.constructor | Windows/Services/SecurityPolicyService.cs:16-18 | the service starts in the initial state |
| SecurityPolicy.SecurityPolicyService.IsLockedOut | Windows/Services/SecurityPolicyService.cs:20 | locked iff the clock is before the expiry |
| SecurityPolicy.SecurityPolicyService.AttemptsRemaining | Windows/ViewModels/LoginViewModel.cs:85 | the attempts left before lockout, max(0, 5 − failures) (an assumed definition, see Left out) |
| SecurityPolicy.SecurityPolicyService.RecordFailedAttempt | Windows/Services/SecurityPolicyService.cs:22-29 | the new state is one recorded failure at `now`; the invariant is kept |
| SecurityPolicy.SecurityPolicyService.ResetAttempts | macOS/Services/SecurityPolicyService.swift:25-28 | the new state is the initial one |
| LoginGate.LockedIgnoresPassword | Windows/ViewModels/LoginViewModel.cs:68-74 | while locked the outcome and the policy are the same for every password, so even the right one is turned away |
| LoginGate.Decide | Windows/ViewModels/LoginViewModel.cs:63-99 | refused unchecked iff locked, with the seconds to the expiry; succeeds iff unlocked and the password matches; locks iff the new policy state is locked; otherwise rejects with the new state's attempts left |
| LoginGate.After | macOS/ViewModels/LoginViewModel.swift:21-51 | a locked policy is left as it is; a match outside a lockout resets it and unlocks at every time; a miss adds one failure; the invariant is kept |
| LoginGate.UnlockedAttempt | Windows/ViewModels/LoginViewModel.cs:76-85 | outside a lockout the attempt succeeds iff the password matches; success resets the policy, failure records exactly one failure |
| LoginGate.FailureOutcome | Windows/ViewModels/LoginViewModel.cs:84-96 | a failure locks iff it is the fifth or later; otherwise it reports 5 − (failures + 1) ≥ 1 attempts left, so "Incorrect password." without a count never shows |
| LoginGate.FreshCountdown | Windows/ViewModels/LoginViewModel.cs:82-98 | from a fresh policy, wrong passwords are rejected with 4, 3, 2, 1 attempts left and the fifth locks |
| LoginGate.LockoutSeenLater | Windows/ViewModels/LoginViewModel.cs:68-74 | an attempt inside the window reports the seconds left; Windows shows 1 to 15 minutes, and at the moment of locking Windows says 15 while macOS says 16 |
| LoginGate.CeilMinutes | Windows/ViewModels/LoginViewModel.cs:70 | the least whole number of minutes covering the seconds left |
| LoginGate.MacMinutes | macOS/ViewModels/LoginViewModel.swift:26 | truncated minutes plus one: the seconds lie in [(m − 1)·60, m·60) |
| LoginGate.MinutesDiffer | macOS/ViewModels/LoginViewModel.swift:26 | the macOS count exceeds the Windows count by one exactly when the seconds left are a whole number of minutes |
| LoginGate.CountPhraseReads | Windows/ViewModels/LoginViewModel.cs:94 | the count phrase starts with digits that read back as the count and ends in "s" iff the count is not 1 |
| LoginGate.MessagesCompared | macOS/ViewModels/LoginViewModel.swift:25-50 | both platforms word a wrong password the same, and word both lockout messages differently |
| WindowsLogin.WarningAfterFailures | Windows/ViewModels/LoginViewModel.cs:46 | from a fresh policy the attempts banner shows iff exactly 3 or 4 failures were recorded |
| WindowsLogin.WarningTextReads | Windows/ViewModels/LoginViewModel.cs:47 | the banner starts with the count, read back, and is pluralised iff the count is not 1 |
| WindowsLogin.LoginViewModel.constructor | Windows/ViewModels/LoginViewModel.cs:54-61 | empty fields, and the counter copied from the policy |
| WindowsLogin.LoginViewModel.ShowAttemptsWarning | Windows/ViewModels/LoginViewModel.cs:46 | shown iff one or two attempts are left |
| WindowsLogin.LoginViewModel.AttemptsWarningText | Windows/ViewModels/LoginViewModel.cs:47 | the banner text for the current counter |
| WindowsLogin.LoginViewModel.ExecuteLogin | Windows/ViewModels/LoginViewModel.cs:63-99 | success iff the gate decides so for the locker's verdict on the typed password; the new policy is the gate's; the password is cleared only on success; every failure shows its Windows message; the counter is refreshed only after a checked wrong password |
| WindowsLogin.LoginViewModel.RecordWrongPassword | Windows/ViewModels/LoginViewModel.cs:82-98 | one failure recorded, the counter refreshed, the message that of the gate's outcome |
| WindowsLogin.LoginViewModel.RejectLockedOut | Windows/ViewModels/LoginViewModel.cs:68-74 | during a lockout the password and counter stay and the minutes-left message shows |
| MacLogin.LoginViewModel.constructor | macOS/ViewModels/LoginViewModel.swift:15-19 | empty fields, and the counter copied from the policy |
| MacLogin.LoginViewModel.Login | macOS/ViewModels/LoginViewModel.swift:21-51 | as on Windows with the keychain's verdict and the macOS messages; while locked the keychain is not touched, otherwise it is what authentication (including migration) leaves |
| MacLogin.LoginViewModel.RejectLockedOut | macOS/ViewModels/LoginViewModel.swift:25-30 | during a lockout the password and counter stay and the macOS minutes-left message shows |
| MacLogin.LoginViewModel.RecordWrongPassword | macOS/ViewModels/LoginViewModel.swift:38-50 | one failure recorded, the counter refreshed, the message that of the gate's outcome |
| WindowsCredentials.Retrieve | Windows/Services/WindowsSecurityService.cs:17 | finds a credential for the resource and user when there is one; with unique keys it is the one |
| WindowsCredentials.FindAllByResource | Windows/Services/WindowsSecurityService.cs:30 | exactly the credentials of the resource |
| WindowsCredentials.Remove | Windows/Services/WindowsSecurityService.cs:31 | removes exactly the credentials with the same resource and user; unique keys are kept |
| WindowsCredentials.Add | Windows/Services/WindowsSecurityService.cs:35 | the new credential replaces any with its resource and user; unique keys are kept |
| WindowsCredentials.Authenticates | Windows/Services/WindowsSecurityService.cs:13-24 | true only if the stored credential for "Noah" has this password, and (with unique keys) then always |
| WindowsCredentials.PasswordIsSet | Windows/Services/WindowsSecurityService.cs:38-48 | true iff some credential is stored under the resource, for any user |
| WindowsCredentials.FreshVault | Windows/Services/WindowsSecurityService.cs:13-48 | an empty locker reports no password and accepts nothing |
| WindowsCredentials.SetThenAuthenticate | Windows/Services/WindowsSecurityService.cs:26-36 | after setting p a password is set and exactly p authenticates |
| WindowsCredentials.SetKeepsOneCredential | Windows/Services/WindowsSecurityService.cs:26-36 | with at most one credential under the resource before, exactly the new one is there after |
| WindowsCredentials.SetKeepsOtherResources | Windows/Services/WindowsSecurityService.cs:26-36 | credentials of other resources are untouched |
| WindowsCredentials.SetButUnmatchable | Windows/Services/WindowsSecurityService.cs:38-48 | a credential for another user reports a password set that no input matches |
| WindowsCredentials.WindowsSecurityService.SetPassword | Windows/Services/WindowsSecurityService.cs:26-36 | the new locker is the specified one; a password is set and exactly the new one authenticates |
| WindowsCredentials.WindowsSecurityService.constructor | Windows/Services/WindowsSecurityService.cs:7-10 | the service reads and writes the locker it is given |
| WindowsCredentials.WindowsSecurityService.Authenticate | Windows/Services/WindowsSecurityService.cs:13-24 | the locker's verdict on the password; an accepted password implies a password is set |
| WindowsCredentials.WindowsSecurityService.IsPasswordSet | Windows/Services/WindowsSecurityService.cs:38-48 | true iff some credential is stored under the resource |
| MacCredentials.SetPasswordOverwrites | macOS/Services/MacOSSecurityService.swift:42-62 | the current item holds exactly p and every other account is unchanged |
| MacCredentials.MigrationSticks | macOS/Services/MacOSSecurityService.swift:10-22 | an accepted password is afterwards stored in the current item, the legacy item stays, and it keeps matching |
| MacCredentials.RejectionWritesNothing | macOS/Services/MacOSSecurityService.swift:10-22 | a rejected password leaves the keychain as it was |
| MacCredentials.LegacySurvivesSet | macOS/Services/MacOSSecurityService.swift:42-62 | setting a password leaves the legacy item, so both the new and the legacy password match |
| MacCredentials.LegacyOnlyKeychain | macOS/Services/MacOSSecurityService.swift:64-73 | a keychain holding only the legacy item reports no password set, yet accepts the legacy password |
| MacCredentials.EmptyKeychainRejects | macOS/Services/MacOSSecurityService.swift:10-22 | with neither item nothing is accepted |
| MacCredentials.MacOSSecurityService.Authenticate | macOS/Services/MacOSSecurityService.swift:10-22 | accepted iff the current or the legacy item matches; the keychain is migrated only by a legacy match |
| MacCredentials.MacOSSecurityService.SetPassword | macOS/Services/MacOSSecurityService.swift:42-62 | the current item is deleted and added anew with the password |
| MacCredentials.MacOSSecurityService.constructor | macOS/Services/MacOSSecurityService.swift:4-8 | the service reads and writes the keychain it is given |
| MacCredentials.MacOSSecurityService.GetStoredPassword | macOS/Services/MacOSSecurityService.swift:24-40 | the item's password iff the account has an item |
| MacCredentials.MacOSSecurityService.IsPasswordSet | macOS/Services/MacOSSecurityService.swift:64-73 | true iff the current account has an item; the legacy item does not count |
| SetupRules.WindowsSetupError | Windows/ViewModels/SetupViewModel.cs:58-70 | no error iff the password is not blank and equals the confirmation; the error is the empty message iff the password is blank |
| SetupRules.MacSetupError | macOS/ViewModels/SetupViewModel.swift:21-31 | no error iff the password is not "" and equals the confirmation; the error is the empty message iff the password is "" |
| SetupRules.WindowsIsStricter | Windows/ViewModels/SetupViewModel.cs:58 | Windows accepts no more than macOS; it refuses what macOS accepts exactly for a white-space-only password confirmed correctly; the two errors differ exactly for white-space-only passwords |
| SetupRules.EmptinessFirst | macOS/ViewModels/SetupViewModel.swift:21-25 | emptiness is checked before the confirmation; macOS accepts "  \t" confirmed |
| WindowsSetup.SetupViewModel.constructor | Windows/ViewModels/SetupViewModel.cs:48-54 | empty fields, and the shared services kept |
| WindowsSetup.SetupViewModel.ExecuteSetup | Windows/ViewModels/SetupViewModel.cs:56-74 | success iff no Windows setup error; on success the locker holds the password and exactly it authenticates; on failure the locker is unchanged and the error shown |
| MacSetup.SetupViewModel.constructor | macOS/ViewModels/SetupViewModel.swift:15-18 | empty fields, and the shared services kept |
| MacSetup.SetupViewModel.Setup | macOS/ViewModels/SetupViewModel.swift:20-35 | success iff no macOS setup error; on success the current item holds the password, it matches and a password is set; on failure the keychain is unchanged and the error shown |
| Welcome.Greeting | Windows/ViewModels/WelcomeViewModel.cs:25-35 | morning iff 5 ≤ h < 12, afternoon iff 12 ≤ h < 17, evening iff 17 ≤ h < 21, night otherwise |
| Welcome.GreetingChangesAtBoundaries | macOS/ViewModels/WelcomeViewModel.swift:13-21 | from one hour to the next the greeting changes exactly at 05, 12, 17 and 21 |
| Welcome.FourGreetings | Windows/ViewModels/WelcomeViewModel.cs:28-34 | every hour gets one of the four greetings, and each is given |
| Welcome.WelcomeViewModel.constructor | Windows/ViewModels/WelcomeViewModel.cs:19-23 | the greeting is the one for the hour |
| Navigation.Route | Windows/ViewModels/MainViewModel.cs:40-82 | the dashboard is reached only from setup or login on success and never left; welcome leads to login iff a password is set; welcome is never re-entered |
| Navigation.DashboardStays | Windows/ViewModels/MainViewModel.cs:71-82 | no run of events leaves the dashboard |
| Navigation.WelcomeNotRevisited | Windows/ViewModels/MainViewModel.cs:40-55 | once past the welcome screen no run of events returns to it |
| Navigation.OnlyOwnSuccessLeaves | Windows/ViewModels/MainViewModel.cs:57-69 | from setup (login) a run of events ends on that screen or the dashboard, and on the dashboard iff it holds a successful setup (login) |
| Navigation.PasswordDecidesTheWayIn | macOS/ViewModels/MainViewModel.swift:49-74 | with a password stored only a successful login opens the dashboard; without one only a successful setup |
| WindowsShell.MainViewModel.constructor | Windows/ViewModels/MainViewModel.cs:23-33 | the welcome screen for the hour is shown and nothing is cached yet |
| WindowsShell.MainViewModel.PreFetchApps | Windows/ViewModels/MainViewModel.cs:35-38 | the cache holds the registry scan of both hives; the screen is unchanged |
| WindowsShell.MainViewModel.OnNavigationRequested | Windows/ViewModels/MainViewModel.cs:43-53 | the next screen is the route's for "password set?", with a fresh view model over the shared services |
| WindowsShell.MainViewModel.SubmitSetup | Windows/ViewModels/MainViewModel.cs:57-62 | the screen follows the route for the setup's success; on success the locker holds the password, otherwise nothing changes |
| WindowsShell.MainViewModel.SubmitLogin | Windows/ViewModels/MainViewModel.cs:64-69 | the screen follows the route for the gate's outcome, and the policy is the gate's new state |
| WindowsShell.MainViewModel.NavigateToDashboard | Windows/ViewModels/MainViewModel.cs:71-82 | the dashboard opens with the cached apps in order, or none when nothing is cached |
| MacShell.MainViewModel.constructor | macOS/ViewModels/MainViewModel.swift:23-41 | the welcome screen for the hour is shown and the cache is empty |
| MacShell.MainViewModel.PreFetchApps | macOS/ViewModels/MainViewModel.swift:43-47 | the cache holds the sorted union of both folder scans |
| MacShell.MainViewModel.OnNavigationRequested | macOS/ViewModels/MainViewModel.swift:49-58 | the next screen is the route's for "password set?", with a fresh view model over the shared services |
| MacShell.MainViewModel.NavigateToSetup | macOS/ViewModels/MainViewModel.swift:60-66 | a fresh setup screen with empty fields |
| MacShell.MainViewModel.NavigateToLogin | macOS/ViewModels/MainViewModel.swift:68-74 | a fresh login screen whose counter is the policy's |
| MacShell.MainViewModel.SubmitSetup | macOS/ViewModels/MainViewModel.swift:60-66 | the screen follows the route for the setup's success; on success the keychain's current item holds the password, otherwise nothing changes |
| MacShell.MainViewModel.SubmitLogin | macOS/ViewModels/MainViewModel.swift:68-74 | the screen follows the route for the gate's outcome, and the policy is the gate's new state |
| MacShell.MainViewModel.NavigateToDashboard | macOS/ViewModels/MainViewModel.swift:76-82 | the dashboard opens with the cached apps |
| WindowsApps.ParseIconPath | Windows/Services/WindowsAppService.cs:60-65 | none iff the value is missing or empty; otherwise a path with no comma and no enclosing quote |
| WindowsApps.ParseIconPathForms | Windows/Services/WindowsAppService.cs:60-65 | "path", "path,index" and "\"path\",index" all give back the path |
| WindowsApps.CollectNames | Windows/Services/WindowsAppService.cs:41-50 | the collected names are exactly the non-empty display names met |
| WindowsApps.CollectDistinct | Windows/Services/WindowsAppService.cs:41 | no name is collected twice |
| WindowsApps.CollectFirstWins | Windows/Services/WindowsAppService.cs:41-50 | an application is collected iff it is built from the first listed entry with its name |
| WindowsApps.ScanKey | Windows/Services/WindowsAppService.cs:31-52 | the loop over one key's subkeys adds what the collection specifies, keeping the dictionary's keys equal to the names |
| WindowsApps.ScanHive | Windows/Services/WindowsAppService.cs:24-31 | the loop over both uninstall keys of a hive adds what the collection specifies; a key that does not open adds nothing |
| WindowsApps.GetInstalledApps | Windows/Services/WindowsAppService.cs:14-58 | the result is the collection over the machine hive then the user hive, native then 32-bit view |
| WindowsApps.LaunchTarget | Windows/Services/WindowsAppService.cs:67-73 | something is started iff there is an entry with a non-empty path, and it is that path |
| WindowsApps.LaunchCollected | Windows/Services/WindowsAppService.cs:44-47 | a collected application can be launched iff its entry had a non-empty install location |
| MacApps.BundleEntry | macOS/Services/AppServiceLauncher.swift:35-45 | the name plus ".app" is the item; the identifier is the full path; no icon |
| MacApps.BundlesMembers | macOS/Services/AppServiceLauncher.swift:35-46 | an entry is scanned iff it is made from a listed ".app" item |
| MacApps.BundlesCount | macOS/Services/AppServiceLauncher.swift:35-46 | a scan yields exactly as many entries as the listing has ".app" items |
| MacApps.ScanDirectory | macOS/Services/AppServiceLauncher.swift:29-51 | the bundle entries of the listing in order, one per ".app" item (BundlesCount), or none when listing fails |
| MacApps.SortByName | macOS/Services/AppServiceLauncher.swift:22 | the result is a permutation of its input |
| MacApps.SortByNameSorted | macOS/Services/AppServiceLauncher.swift:22 | the result is ordered by name |
| MacApps.SortedPermutationUnique | macOS/Services/AppServiceLauncher.swift:8-22 | two name-ordered permutations with unique names are equal |
| MacApps.GetInstalledApps | macOS/Services/AppServiceLauncher.swift:4-27 | the sorted concatenation of both scans in completion order |
| MacApps.InstalledAppsSortedUnion | macOS/Services/AppServiceLauncher.swift:8-22 | the result is sorted and holds exactly both scans' entries; with unique names the completion order does not show |
| MacApps.InstalledAppsCount | macOS/Services/AppServiceLauncher.swift:6-22 | the merged list has as many entries as both listings have ".app" items together, in either completion order |
| AppleScript.ParseMusicInfo | macOS/Services/AppleScriptHelper.swift:47-58 | a track exactly when the output splits into at least four parts whose first is not "None"; then the title and the artist are the second and third parts, and it is playing iff the fourth part is "playing" |
| AppleScript.ParseScriptAnswer | macOS/Services/AppleScriptHelper.swift:29-58 | what the script writes for a player reads back as its title, artist and state, if no field holds '\|' |
| AppleScript.ExtraFieldsIgnored | macOS/Services/AppleScriptHelper.swift:48-54 | any separator-free parts after the fourth leave the track unchanged |
| AppleScript.NothingPlayingGivesNone | macOS/Services/AppleScriptHelper.swift:44-58 | "None\|\|\|stopped" gives no track |
| AppleScript.SeparatorInTitleShifts | macOS/Services/AppleScriptHelper.swift:48-54 | a '\|' in a playing track's title shifts the fields: for separator-free a, b and artist, title a\|b reads as title a and artist b, and the artist is read as the state, so the track reads as playing iff the artist is "playing" |
| MacMedia.StringOr | macOS/Services/MacOSMediaService.swift:63-64 | the string under the key, else the fallback |
| MacMedia.NotifiedInfo | macOS/Services/MacOSMediaService.swift:63-67 | title and artist from the player's keys or placeholders; playing iff the state is "Playing"; no art |
| MacMedia.CurrentMedia | macOS/Services/MacOSMediaService.swift:90-95 | a track iff the last one is known and playing, and then it |
| MacMedia.PollTwice | macOS/Services/MacOSMediaService.swift:34-37 | a poll that finds the known track reports nothing |
| MacMedia.ArtistChangeUnseen | macOS/Services/MacOSMediaService.swift:34 | a new artist alone does not replace the known track |
| MacMedia.EmptyNotification | macOS/Services/MacOSMediaService.swift:63-67 | a notification without the keys gives a placeholder, not playing, and nothing current |
| MacMedia.MacOSMediaService.Poll | macOS/Services/MacOSMediaService.swift:28-40 | a parsed track that changed title or state is remembered and reported; anything else changes nothing |
| MacMedia.MacOSMediaService.HandleAppleMusicChange | macOS/Services/MacOSMediaService.swift:60-73 | with user info the Apple Music track is remembered and reported, changed or not; without it nothing changes |
| MacMedia.MacOSMediaService.HandleSpotifyChange | macOS/Services/MacOSMediaService.swift:75-88 | the same for the Spotify keys |
| MacMedia.MacOSMediaService.Notified | macOS/Services/MacOSMediaService.swift:67-72 | the track is remembered and reported |
| MacMedia.MacOSMediaService.constructor | macOS/Services/MacOSMediaService.swift:9-13 | nothing is known and nothing reported yet |
| MacMedia.MacOSMediaService.GetCurrentMedia | macOS/Services/MacOSMediaService.swift:90-95 | the last track if it is playing |
| WindowsMedia.InfoFor | Windows/Services/WindowsMediaService.cs:64-122 | the fallback unless a session was read with properties and playback info; then title and artist or placeholders, playing iff "Playing", the thumbnail's bytes |
| WindowsMedia.CurrentMedia | Windows/Services/WindowsMediaService.cs:135-138 | the last track, or the fallback (not playing) before any |
| WindowsMedia.PlayingOnlyWhenPlaying | Windows/Services/WindowsMediaService.cs:84-89 | playing iff the status is Playing; an empty title or missing artist is replaced |
| WindowsMedia.FallbackLookalike | Windows/Services/WindowsMediaService.cs:124-133 | a paused track titled "Nothing Playing" by "Start some music" without art equals the fallback |
| WindowsMedia.WindowsMediaService.Initialize | Windows/Services/WindowsMediaService.cs:23-28 | the manager is kept and the first read recorded and raised |
| WindowsMedia.WindowsMediaService.UpdateMediaInfo | Windows/Services/WindowsMediaService.cs:64-122 | nothing before the manager exists; afterwards the track read is recorded and raised every time |
| WindowsMedia.WindowsMediaService.GetCurrentMedia | Windows/Services/WindowsMediaService.cs:135-138 | the last track, or the fallback |
| WindowsMedia.WindowsMediaService.constructor | Windows/Services/WindowsMediaService.cs:15-18 | no session manager yet, no track and nothing raised |
| WindowsSettings.ReadString | Windows/Services/WindowsSettingsService.cs:18-24 | the stored string, else the default (missing key, missing value, other type) |
| WindowsSettings.ReadBool | Windows/Services/WindowsSettingsService.cs:34-42 | for a DWORD, true iff it is 1; else the default |
| WindowsSettings.StringRoundTrip | Windows/Services/WindowsSettingsService.cs:10-24 | a string written reads back whatever the default; other values, strings or booleans, read as before whatever their default |
| WindowsSettings.BoolRoundTrip | Windows/Services/WindowsSettingsService.cs:26-42 | a boolean written as 1 or 0 reads back whatever the default; other values read as before |
| WindowsSettings.KindsDoNotMix | Windows/Services/WindowsSettingsService.cs:22-39 | a boolean reads as the string default and a string as the boolean default |
| WindowsSettings.Defaults | Windows/Services/WindowsSettingsService.cs:18-42 | before any write every read gives its default; a DWORD of 2 reads as false |
| WindowsSettings.WindowsSettingsService.constructor | Windows/Services/WindowsSettingsService.cs:6-8 | the service works on the settings key as it exists, or not yet |
| WindowsSettings.WindowsSettingsService.SetString | Windows/Services/WindowsSettingsService.cs:10-16 | the key is created if missing and the value replaced by the string |
| WindowsSettings.WindowsSettingsService.GetString | Windows/Services/WindowsSettingsService.cs:18-24 | the string read back, as specified |
| WindowsSettings.WindowsSettingsService.SetBool | Windows/Services/WindowsSettingsService.cs:26-32 | the key is created if missing and the value replaced by DWORD 1 or 0 |
| WindowsSettings.WindowsSettingsService.GetBool | Windows/Services/WindowsSettingsService.cs:34-42 | the boolean read back, as specified |
| Converters.PlaybackStateText | Windows/UI/Converters.cs:10-17 | "Playing" iff true, "Paused" iff false, "Stopped" iff not a boolean |
| Converters.VisibilityFor | Windows/UI/Converters.cs:57-64 | visible iff true, never merely hidden |
| Converters.ImageFor | Windows/UI/Converters.cs:24-50 | an image iff a non-empty byte array the decoder accepts, made from those bytes |
| Converters.ConvertBack | Windows/UI/Converters.cs:19-66 | every converter's ConvertBack fails with NotImplemented, so nothing converted comes back |
| Converters.PlaybackAndVisibilityAgree | Windows/UI/Converters.cs:10-64 | an element is visible iff the playback text is "Playing"; a non-boolean is collapsed and "Stopped" |
| Converters.NoImageWithoutBytes | Windows/UI/Converters.cs:28 | null, an empty array or a non-array give no image |
| Commands.Dispatch | Windows/UI/RelayCommand.cs:20-30 | a T is passed on as itself; null as the default only when the default is null; anything else is dropped |
| Commands.NullDroppedForValueTypes | Windows/UI/RelayCommand.cs:26 | over a value type null is dropped, and so is a parameter of another type |
| Commands.LaunchCommandGuarded | Windows/ViewModels/DashboardViewModel.cs:76 | a null parameter to the launch command reaches the launcher as no entry and starts nothing; an entry with a path starts that path |
| Commands.RelayCommand.CanExecute | Windows/UI/RelayCommand.cs:10 | always allowed |
| Commands.RelayCommand.Execute | Windows/UI/RelayCommand.cs:11 | the action runs once more |
| Commands.RelayCommand.constructor | Windows/UI/RelayCommand.cs:9 | the action has not run yet |
| Commands.TypedRelayCommand.CanExecute | Windows/UI/RelayCommand.cs:19 | always allowed |
| Commands.TypedRelayCommand.Execute | Windows/UI/RelayCommand.cs:20-30 | the action is called with exactly what dispatch passes on, or not at all |
| Commands.TypedRelayCommand.constructor | Windows/UI/RelayCommand.cs:18 | the action has not been called yet; whether `default(T)` is null is fixed |

## Left out

- SecurityPolicy.SecurityPolicyService.AttemptsRemaining: neither policy file declares `AttemptsRemaining` (nor, on Windows, `LockoutExpiry`), yet both login view models read them. The model assumes max(0, 5 − failures) and the stored expiry.
- The clock is whole seconds and never goes back. Daylight-saving shifts, sub-second times and `DateTime` arithmetic limits are not modelled. `DateTime.MinValue` and `Date.distantPast` are a sentinel before every reading.
- The failure counter is unbounded. The C# `int` cannot realistically overflow by failed logins.
- `ClearSensitiveData` (disposing a `SecureString`) and the macOS password zeroing are memory hygiene, with nothing to state on values. The Exit commands terminate the process.
- Windows credential locker: a vault that cannot be opened and credentials of arbitrary shape are not modelled. Lookups that throw become "nothing found".
- macOS keychain: status codes other than found or not found, including the locked-keychain status that `isPasswordSet` also accepts, are not modelled, nor are UTF-8 encoding failures.
- `getUserName` and `setUserName` (user defaults) are not part of this model.
- View models are built with a `Hour` or `now` passed in. The 1.5-second welcome delay is left to the caller, who invokes the navigation handler once.
- The macOS main view model passes a protocol-typed security policy to view models declared to take the concrete class. The model passes the shared concrete service.
- The dashboard view models, the system monitors, the startup services, the macOS settings service, the views and the UI helpers are not part of this model. A dashboard is represented by the app list it opens with. Its own later load of the list is not modelled.
- The macOS app scan runs both folders concurrently. The completion order is the parameter `systemFirst`, and `InstalledAppsSortedUnion` shows it does not matter when names are unique.
- MacApps.SortByName: Swift's `sorted(by:)` is not guaranteed stable. The model is one stable insertion sort, so among entries with equal names the model fixes an order the source does not promise. Names are compared by code points, not by Swift's `String` ordering under Unicode canonical equivalence.
- MacApps.BundleEntry: `deletingPathExtension` and `appendingPathComponent` are modelled as removing the 4 characters ".app" and joining with "/". This covers plain names; edge cases such as a bare ".app" item or a path ending in "/" are not modelled.
- `launchApp` on macOS (NSWorkspace) and `Process.Start` on Windows are foreign calls: the model states only which path would be started.
- Icon bytes (`GetIconBytes`, `NSWorkspace` icons) and the thumbnail stream are not read. A Windows entry keeps its icon path, and a thumbnail is given as bytes or `None` when reading failed.
- Registry and dictionary details: the registry is taken as case-sensitive where Windows compares names case-insensitively; `Dictionary.Values` is taken in insertion order; values other than REG_SZ and REG_DWORD read as "other type".
- `WindowsSettings`: null string arguments and registry write failures (exceptions) are not modelled.
- MacCredentials.MacOSSecurityService.Authenticate: Swift's `String` `==` compares under Unicode canonical equivalence, so a typed "e" followed by a combining acute accent matches a stored "é". The model compares code points and rejects that password. `MacLogin.LoginViewModel.Login` inherits this.
- SetupRules.MacSetupError: Swift's `!=` on the password and its confirmation is canonical equivalence. The model compares code points, so it reports a mismatch for two canonically equivalent spellings that the source accepts.
- MacMedia.MacOSMediaService.Poll: Swift's `!=` on titles is canonical equivalence. The model compares code points, so it reports as changed a title that the source sees as unchanged.
- WindowsApps.GetInstalledApps: a registry read that throws is not modelled, for instance a `SecurityException` from `OpenSubKey` or `GetSubKeyNames` on a key the user may not read. Nothing in the source catches it, so the source then abandons the whole scan. The model only knows keys that do not open, which it skips, and it never fails.
- `osascript` runs outside the model; its trimmed output is the input, and `None` stands for a failed run.
- Media services: timers, distributed notifications and dispatch queues are each a synchronous step, and the session event wiring is reduced to "each change re-reads the session". Async completions that would race are not modelled.
- WPF binding, `INotifyPropertyChanged`, `CanExecuteChanged` and image decoding are not modelled; whether the decoder accepts the bytes is a parameter.
