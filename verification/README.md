# Risk Insights core, modelled in Dafny

A model of the deterministic core of a risk-management web application
(a FastAPI back end over an organisational hierarchy of nodes, with risks,
incidents and action items attached to nodes, and an AI text provider that
writes summaries). Every database read is replaced by a table passed in as a
sequence of immutable records, and every network call, environment variable
and random draw becomes a parameter.

The model has four parts:

- **Scope resolution, aggregation and the insights prompt** (`main.py`).
  `get_descendant_node_ids` collects a node and its descendants.
  `Scope.Descendants` is the reference set. `Scope.CollectDescendants`
  mirrors the accumulator recursion of the source and is proved equal to it.
  The dashboard and the `/insights/{node_id}` fragment filter the risks,
  incidents and action items of the scope and sum the financial loss.
  The fragment also composes a fixed-layout prompt and replaces a provider
  exception by a fixed apology. `build_tree` nests the flat node list.
  The source has no visited-set guard. The model asks for an acyclic
  hierarchy, witnessed by a rank that strictly decreases from every
  parent to each child (`Scope.RankedForest`), for the whole table.
- **Provider dispatch** (`backend/app/ai.py`). `get_insight` becomes a pure
  decision (`Provider.Plan`). Its inputs are the provider name read at
  import, which SDKs imported, and the credentials read at call time. It
  returns either the branch's "not configured" sentence or the one SDK
  request it would make. The SDK itself is an oracle that returns a value
  or raises.
- **Seeding** (`backend/app/seed_data.py`). This covers
  `sanitize_email_country`, the e-mail format, `ai_or_template`, and the
  whole `seed()` loop nest over an in-memory database whose ids count up
  from 1. The random counts and choices and the provider's answers are
  inputs. The model keeps a quirk of the source. "Isle of Man" and "Jersey"
  are entries of `continents` with no sub-regions, so each gets a childless
  level-2 node in the first loop. The second loop then gives each a second,
  populated level-2 node (`SeedData.Seed`).
- **Connection settings** (`backend/app/database.py`). The anchored
  `re.match` of `Host=(.*?);Port=(.*?);Database=(.*?);Username=(.*?);Password=(.*?);`
  is written out as a backtracking matcher with lazy groups. `.` does not
  match a newline. The matcher is proved sound and complete, and it returns
  the match Python's backtracking reaches first. Around it sit the
  environment defaults and the assembly of the SQLAlchemy URL, where
  `quote_plus` is a function parameter.

Points where the code's behaviour is easy to misread:

- `get_descendant_node_ids` keeps no record of visited nodes, so it fails
  on a cycle reachable below its start node. The model takes acyclicity of
  the whole table as a precondition, which is stronger than the source needs.
- A user without a node gets three empty lists on the dashboard, not every
  record in the tables.
- `get_insight` knows exactly four providers: Google AI Studio, DeepSeek,
  Azure OpenAI and OpenAI. Any other setting takes the OpenAI branch.
- `ai_or_template` keeps a provider's "not configured" sentence as the
  seeded text, because that sentence is a non-empty string
  (`SeedData.UnconfiguredProviderLeaksSentinel`).

SQL result order is modelled as table order. `.first()` and `[0]`
therefore pick the earliest matching row.

## Model

| member | source | states |
|---|---|---|
| Scope.Descendants | main.py:67-73 | The scope of a node contains the node's own id, and every other member has a strictly smaller rank than the node. |
| Scope.DescendantsClosed | main.py:71-72 | A child of any member of the scope is itself a member. |
| Scope.DescendantsLeastClosed | main.py:67-73 | The scope is child-closed and lies inside every child-closed set that contains the start id, so it is exactly the least such set. |
| Scope.DescendantsHaveParentInScope | main.py:67-73 | Every member other than the start node is a node whose parent is in the scope, so nothing unrelated is collected. |
| Scope.LeafScope | main.py:67-73 | A node with no children has exactly its own id as its scope. |
| Scope.Children | backend/app/models.py:13-16 | A node's children are exactly the nodes whose parent reference is its id (the ORM backref). |
| Scope.DescendantsViaChildren | main.py:70-72 | The scope is the node's id together with the scopes of its children. |
| Scope.CollectDescendants | main.py:67-73 | The accumulator recursion returns the incoming set together with the scope of the node, whatever was collected before. |
| Scope.GetDescendantNodeIds | main.py:67-70 | Called without an accumulator, the recursion returns exactly the scope of the node. |
| Scope.BuildEntries | main.py:141-148 | One tree entry per child, in the children's order, carrying that child's id, name and level. |
| Scope.BuildTree | main.py:139-149 | The tree has one entry per node whose parent reference is the requested parent. Each entry carries the id, name and level of such a node. |
| Scope.BuildTreeMirrors | main.py:139-151 | At every depth the tree lists exactly the nodes whose parent reference is the enclosing entry's id (the roots at the top), in table order. |
| Scope.PlacedUnderIff | main.py:140 | An entry with id k appears at a level of the tree if and only if some node with id k has that level's parent reference. |
| Models.FindNode | main.py:107 | A node lookup returns a node of the table with the requested id, or nothing when no node has it (or the id is null). |
| Aggregation.ScopedRisks | main.py:114 | The scoped risks are exactly the risks whose node id is in the scope. |
| Aggregation.ScopedIncidents | main.py:115 | The scoped incidents are exactly the incidents whose node id is in the scope. |
| Aggregation.ScopedActions | main.py:116 | The scoped action items are exactly those whose risk, joined on the risk id, has its node in the scope. |
| Aggregation.Gather | main.py:169-171 | The three queries of a scope: each list holds exactly the rows of its table that fall in the scope, and none is longer than its table. |
| Aggregation.EmptyScopeGathersNothing | main.py:169-171 | An empty scope yields three empty lists. |
| Aggregation.GatherMonotone | main.py:169-171 | Widening the scope never drops a risk, incident or action item. |
| Aggregation.GatherAgreesWhenRecordsInside | main.py:169-171 | A narrower scope yields the same three lists, in the same order, as a wider scope whenever it still holds every risk and incident of the wider one. |
| AggregationExamples.NestedScopeExample | main.py:165-171 | In a hierarchy Root → A → B with a sibling C, where all records sit below B, the pages for Root, A and B list the same risks, incidents and action items. The page for C lists nothing. |
| Seqs.FilterCongruent | main.py:169 | Two tests that agree on every row select the same rows, in the same order. |
| Aggregation.FinancialLoss | main.py:119 | The total is zero when no incident is financial with a non-zero amount. It is never negative when no counted amount is negative. |
| Aggregation.FinancialLossIgnoresNonFinancial | main.py:119 | The loss total over all incidents equals the total over the financial ones: non-financial amounts never count. |
| Aggregation.FinancialLossAppend | main.py:119 | The loss total of two incident lists together is the sum of their totals. |
| AggregationExamples.FinancialLossExample | main.py:119 | A financial incident of 100, a non-financial one of 50 and a financial one with no amount total 100. |
| Aggregation.UserScope | main.py:107-111 | A user with no node, or a missing node, has an empty scope; otherwise the scope contains the user's node. |
| Aggregation.Dashboard | main.py:104-131 | The dashboard counts the whole user scope and reports its financial loss. Its risk and incident samples are prefixes of at most five. A user without a node gets zero counts and zero loss. |
| Insights.SampleLines | main.py:178-183 | There is one sample line per non-empty list. The risk line comes first, the incident line follows it, and the action line comes last. Each line is built from element 0 of its list. |
| Insights.Prompt | main.py:174-184 | The prompt opens with the scope line ("Provide a concise AI insight for the following scope: " and the node name) and a newline. It ends with the closing sentence, with no newline after it. |
| Insights.PromptIsJoinedLines | main.py:174-184 | The prompt is its lines joined by newlines, ending in the closing sentence with no trailing newline. |
| Insights.PromptLineLayout | main.py:174-184 | With single-line fields, the prompt reads back as the scope line, three count lines, the present sample lines in order, then the closing sentence. Each sample line appears if and only if its list is non-empty. |
| Insights.SampleLinesPresence | main.py:174-184 | A line starting with "Top Risk: " is present if and only if there is a risk. The same holds for "Recent Incident: " and incidents, and for "Sample Action: " and actions. No fixed line or closing sentence can be mistaken for a sample line. |
| Insights.PromptCountsRoundTrip | main.py:175-177 | For a scope name without a newline, the three counts written into the prompt read back as the sizes of the aggregated lists. |
| Insights.InsightOrApology | main.py:186-189 | A raising provider call becomes exactly "AI insights temporarily unavailable."; a returned value passes through unchanged. |
| Insights.InsightsPage | main.py:159-200 | An unknown node gives exactly the not-found fragment. Otherwise the counts cover the node's whole scope, and the samples are prefixes of at most three. The insight is the provider's answer to the prompt for that scope. |
| Insights.ProviderFailureBecomesApology | main.py:186-189 | When the configured provider raises, the fragment carries the apology sentence. |
| Insights.UnconfiguredProviderShowsSentinel | main.py:187 | With the provider unconfigured, the fragment carries that provider's "not configured" sentence. |
| Provider.ProviderSetting | backend/app/ai.py:6 | The provider name is the AI_PROVIDER value when set, and "openai" otherwise. |
| Provider.Plan | backend/app/ai.py:23-70 | The branch is chosen by the provider name alone. A missing SDK or an unset or empty credential gives exactly that branch's sentence. Otherwise one request goes to that branch's backend, as a single user message carrying the text verbatim. |
| Provider.GetInsight | backend/app/ai.py:23-70 | The result is the sentence when the backend is not configured, and otherwise exactly what the single SDK call returns or raises. |
| Provider.UnknownProviderIsOpenAI | backend/app/ai.py:60-64 | Any provider name other than google, deepseek and azure behaves exactly like openai. |
| Provider.PlanReadsOnlyItsCredentials | backend/app/ai.py:25-62 | A branch's decision depends only on its own credentials. |
| Provider.ConfiguredRequests | backend/app/ai.py:29-69 | The configured requests use gemini-1.5-pro, deepseek-chat and gpt-3.5-turbo. Azure uses the deployment as engine, the endpoint as base and API version 2023-05-15. |
| Provider.CallFailurePropagates | backend/app/ai.py:23-70 | A failing SDK call propagates out of get_insight unchanged. |
| Provider.NotConfiguredNeverCalls | backend/app/ai.py:27-28 | An unconfigured backend returns a non-empty string without consulting the oracle and without raising. |
| SeedData.Sanitize | backend/app/seed_data.py:31-34 | The sanitized country name is no longer than the input and holds only lower-case ASCII letters and digits. |
| SeedData.SanitizeKeepsLoweredAlnums | backend/app/seed_data.py:33-34 | Sanitizing lower-cases the input's ASCII letters and digits, in order, and drops every other character. |
| SeedData.SanitizeIdempotent | backend/app/seed_data.py:31-34 | Sanitizing a sanitized name changes nothing. |
| SeedData.SanitizeSouthAfrica | backend/app/seed_data.py:11 | "South Africa" sanitizes to "southafrica". |
| SeedData.SanitizeCoteDIvoire | backend/app/seed_data.py:12 | "Côte d'Ivoire" sanitizes to "ctedivoire": the space, the apostrophe and the non-ASCII letter are dropped. |
| SeedData.EmailRoundTrip | backend/app/seed_data.py:84-85 | A generated address splits at its only '@' into the lower-cased user name and the sanitized country followed by ".testbank.com". |
| SeedData.Email | backend/app/seed_data.py:84-85 | The address is the lower-cased user name, then '@', then the sanitized country, and it ends in ".testbank.com". |
| SeedData.EmailsDistinct | backend/app/seed_data.py:147-148 | Users whose lower-cased names differ get different addresses. |
| SeedData.AiOrTemplate | backend/app/seed_data.py:37-44 | The fallback is used when the call raises or returns None, an empty string or a non-string. A non-empty string comes back stripped of surrounding whitespace. |
| SeedData.BlankAnswerGivesEmptyText | backend/app/seed_data.py:40-41 | A whitespace-only answer becomes the empty string, not the fallback. |
| SeedData.UnconfiguredProviderLeaksSentinel | backend/app/seed_data.py:37-44 | With the provider unconfigured, the seeded text is the provider's "not configured" sentence, not the template. |
| SeedData.FirstUserAt | backend/app/seed_data.py:124-125 | The assignee is the first user of the unit in table order, and there is none exactly when no user sits on the unit. |
| SeedData.UserStep | backend/app/seed_data.py:83-94 | A drawn user name becomes a new user on the unit only if no user has that name yet. |
| SeedData.SeedUsers | backend/app/seed_data.py:81-94 | The user loop adds at most one user per draw, all on the unit and named by the draws, and afterwards every drawn name exists. |
| SeedData.ActionStep | backend/app/seed_data.py:119-133 | An action item is created only when the unit has a user, and it goes to the first such user with the risk's id. |
| SeedData.SeedActions | backend/app/seed_data.py:117-133 | A unit without users gets no action items. Otherwise each action draw adds one item for the risk, assigned to the unit's first user. |
| SeedData.RiskStep | backend/app/seed_data.py:97-133 | Each risk pass adds one risk on the unit with the drawn type, then its action items. |
| SeedData.SeedRisks | backend/app/seed_data.py:96-133 | The risk loop adds exactly one risk per draw, all on the unit, and the action items of all of them when the unit has a user. |
| SeedData.SeedUnit | backend/app/seed_data.py:76-133 | A business unit adds one node one level below its segment. It adds at most one user per draw (at most 3) and one risk per draw (2 to 5). It adds action items only when a user was created, then one or two per risk. |
| SeedData.ActionCountBounds | backend/app/seed_data.py:117 | With one or two action items drawn per risk, a unit asks for between one and two items per risk. |
| SeedData.SeedUnits | backend/app/seed_data.py:76-79 | One business-unit node per draw, each a child of the segment at the unit level. |
| SeedData.SeedSegment | backend/app/seed_data.py:73-79 | A segment node is added under its country, one level down. It is followed by 3 to 5 business-unit nodes, all its children, at the unit level. Every node added is that segment or one of its units. |
| SeedData.SeedSegments | backend/app/seed_data.py:73-79 | For every segment name, a node of that name is added under the country at the segment level. Every node added is such a segment, or a unit at the unit level whose parent is one of those segments. |
| SeedData.SeedCountry | backend/app/seed_data.py:70-79 | A country node is added at level 4 under its sub-region. Below it, every segment name gets a node at level 5. Every later node is such a segment, or a business unit at level 6 under one of them. |
| SeedData.SeedCountries | backend/app/seed_data.py:70-71 | Every country of the sub-region gets a node of its name at level 4 under the sub-region. |
| SeedData.SeedSubregion | backend/app/seed_data.py:68-71 | A sub-region node is added at level 3 under its region. Each of its countries gets a node at level 4 under it. |
| SeedData.SeedSubregions | backend/app/seed_data.py:68-69 | Every sub-region of the region gets a node of its name at level 3 under the region. |
| SeedData.SeedRegion | backend/app/seed_data.py:65-67 | A region node is added at level 2 under the root. It stays childless exactly when it has no sub-regions. |
| SeedData.SeedRegions | backend/app/seed_data.py:65-67 | Every region ends up as a level-2 node under the root. A region without sub-regions is childless, and one with sub-regions has a child. |
| SeedData.SeedExtraCountry | backend/app/seed_data.py:135-142 | Isle of Man or Jersey gets a level-2 node under the root. Below it, every segment name gets a node at level 3. Every later node is such a segment, or a business unit at level 4 under one of them. |
| SeedData.SeedExtraCountries | backend/app/seed_data.py:135-136 | Each of Isle of Man and Jersey gets a level-2 node of its name under the root, with a child when there are segments. |
| SeedData.Seed | backend/app/seed_data.py:62-196 | The seeded tables are consistent: ids count from 1, each node is one level below its parent, and the root is node 1 at level 1. Isle of Man and Jersey each get a childless and a populated level-2 node. The hierarchy is acyclic and no two users share an address. |
| SeedData.SeedForestRanked | backend/app/seed_data.py:63-142 | Every seeded node hangs under an earlier one, so the hierarchy satisfies the acyclicity the scope functions need. |
| SeedData.SeededEmailsUnique | backend/app/seed_data.py:84-94 | No two seeded users share an e-mail address. |
| Database.MatchFrom | backend/app/database.py:19-26 | The anchored match reads each literal key in turn, followed by its group and ';'. Any match it returns fits the input: the keys and groups spell out a prefix, and no group holds a newline. |
| Database.MatchGroup | backend/app/database.py:19-26 | A lazy group tried from length n on ends at a ';', holds no newline past position n, and is followed by a fit of the remaining keys. |
| Database.MatchFromLeast | backend/app/database.py:19-26 | Whenever the pattern can match, the matcher finds a match, and it is the one lazy backtracking reaches first. |
| Database.LastGroupNoSemicolon | backend/app/database.py:24 | The last lazy group stops at the first ';' after its key. |
| Database.ParseConnectionString | backend/app/database.py:19-34 | On success, the rendered Host, Port, Database, Username and Password fields are a prefix of the input. No group holds a newline, and the password holds no ';'. |
| Database.ParseComplete | backend/app/database.py:19-36 | A string the pattern can read is never rejected, and the reading taken has the shortest host, then the shortest port, and so on. |
| Database.ParseRoundTrip | backend/app/database.py:19-34 | Settings free of ';' and newlines parse back from their connection string, whatever follows it. |
| Database.PasswordCutAtSemicolon | backend/app/database.py:24 | A ';' inside the password cuts it short; the rest is ignored as trailing text. |
| Database.LoadSettings | backend/app/database.py:14-42 | A non-empty connection string raises ValueError exactly when the pattern does not match, and otherwise decides all five settings. Without one, nothing raises. |
| Database.DefaultsWhenUnset | backend/app/database.py:37-42 | With nothing set, the settings are localhost, 5432, app_health, postgres, postgres. |
| Database.VariablesUsedWhenSet | backend/app/database.py:37-42 | Without a connection string, every variable that is set is used verbatim. |
| Database.ConnectionStringOverrides | backend/app/database.py:16-36 | With a non-empty connection string, the five individual variables are not read. |
| Database.WrongCaseRejected | backend/app/database.py:19-36 | Keys are case-sensitive: a string starting with "host=" raises. |
| Database.DatabaseUrl | backend/app/database.py:45-51 | The URL starts with "postgresql://" and ends with '@' and the unencoded host:port/database. |
| Database.UrlCredentialsRecoverable | backend/app/database.py:45-51 | The URL is "postgresql://", then the encoded user, ':', the encoded password, '@' and the unencoded host:port/database. When the encoded user has no ':' and the encoded password has no '@', it splits back into those parts. |
| Text.Strip | backend/app/seed_data.py:41 | str.strip returns a slice of its input that neither starts nor ends with whitespace, with only whitespace cut off either side. |
| Text.ParseNatToString | main.py:175-177 | A count rendered in decimal reads back as the same count. |

## Left out

- Authentication (JWT, bcrypt, cookies, OAuth2 dependencies): library-bound cryptography and session plumbing.
- FastAPI routing, Jinja/HTMX template rendering, CORS, static files and the `/health` endpoint: web plumbing. The handlers are modelled as functions that return the values handed to the template.
- The `/risks` and `/incidents` pages (main.py:202-232): they repeat the dashboard's scope filter, which `Aggregation.ScopedRisks` and `Aggregation.ScopedIncidents` already state.
- SQLAlchemy sessions, engine set-up, `create_database_if_not_exists`, and the seeder's table deletion and sequence reset: I/O. The seeded database starts empty, with ids counting up from 1.
- The SDK calls to OpenAI, Azure OpenAI, Gemini and DeepSeek, and the SDK configuration side effects: they are an oracle that returns a value or raises.
- `quote_plus`: a function parameter with no assumed behaviour.
- Python `random`: every count and choice is an input, with the ranges of `randint` stated as preconditions of the seeding methods.
- Timestamps (`created_at`, `due_date`), password hashes and `is_active`: not observed by the modelled logic.
- The frontend (TSX/JS): UI rendering only.
- A tabular question-answering provider and an unscoped "all nodes" insight: no code for them exists in the modelled files.
- Scope.Descendants: requires the whole table to be acyclic. The source recursion has no visited-set guard and raises `RecursionError` only on a cycle reachable below the start node. The model does not cover tables with a cycle elsewhere, so dashboards and fragments over such tables (including a dashboard for a user with no node) are not modelled.
- Scope.Descendants: the interpreter's recursion-depth limit is not modelled. On an acyclic chain deeper than that limit (1000 frames by default) the source raises `RecursionError`, while the model returns the set.
- Scope.BuildTree: requires an acyclic table, although `build_tree()` from the roots returns on any table with unique ids and leaves out the nodes in or below a cycle. Such tables are not modelled.
- Text.Lower: maps only ASCII letters. The seeder lower-cases only ASCII user names and ASCII letters, where this matches Python's `str.lower`.
- Text.Title: capitalises only ASCII letters. The seeder applies it only to the ASCII risk types.
- Aggregation.Dashboard: SQL result order is taken to be table order, because no `ORDER BY` is given and the database's order is unspecified.
- SeedData.FirstUserAt: takes "first" to mean first in table order, for the same reason.
