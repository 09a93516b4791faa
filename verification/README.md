# Verified models of the course-work repository

Five pieces of the repository, each modelled in Dafny in the form its code has, with the theorems
it is meant to satisfy proved for all inputs and all runs.

| piece | repository files | Dafny files |
|---|---|---|
| load balancers: smooth weighted round robin on 32-bit unsigned weights, and plain round robin with a 64-bit counter | `rpc/homework2/loadbalance/roundrobin/` | `weighted_round_robin.dfy`, `round_robin.dfy` |
| HTTP routers: trees of static, parameter, star and regular-expression nodes | `web/homework2/route.go`, `web/homework1/route.go` | `route_trie.dfy`, `route_match.dfy`, `route_path.dfy`, `route.dfy`; `route_v1.dfy`, `route_v1_tree.dfy` |
| distributed lock: three Lua scripts on a store with expiry, and their Go client | `cache/homework2/` | `redis_lock.dfy` |
| RPC wire format: encoders, decoders, framing on a stream | `rpc/homework1/message/message.go`, `rpc/homework1/tcp.go` | `rpc_message.dfy`, `rpc_codec.dfy` |
| SQL builders: SELECT with nested subqueries and joins, INSERT | `orm/homework3/` | `sql_grammar.dfy`, `sql_text.dfy`, `sql_builder.dfy`, `sql_statement.dfy`, `sql_insert.dfy` |

Code that changes objects in place is a class or a method on heap objects, and its contract equates
the new state with a function of the old one; the theorems are about those functions. A Go panic is
a result (`None`, `Panic`, `ok == false`), and the state it leaves is part of the contract. What a
program gets from outside is a parameter: the order in which a map is ranged over, the regular
expression engine, name resolution, what other clients and the network do between two steps.

`dafny verify dfyconfig.toml` checks everything.

Where the code and what is said about it differ, the model follows the code and a theorem says
exactly how far the promise holds:

- The weighted picker compares unsigned weights that the algorithm drives below zero. It follows the
  algorithm iff no weight is negative when compared (`PicksAgreeExactly`, and `AgreeForEverExactly` for
  all time); its weights stay the algorithm's as long as every winner can pay (`RunExactly`), for ever
  iff at most two connections have a positive weight (`NeverWrapsExactly`); with weights 5, 1, 1 the
  fifth pick differs (`FiveOneOne`), with weights 1, 1, 1 none does (`OneOneOne`).
- `lock.lua` sets the key with `PX` (milliseconds) and extends it with `expire` (seconds), both from
  the same number. Mutual exclusion holds of the leases that the scripts grant; the seconds a caller
  asked for are cut short exactly when its lease came from the first branch
  (`PromiseBrokenExactly`, `TwoCallersAtOnce`).
- A comment in `Client.Lock` says that a timeout is retried. The first try that times out ends the
  call instead, and can leave the key locked (`TimeoutLeavesKeyLocked`).
- The comment on `addRoute` in `web/homework1/route.go` says that a registered route cannot be
  overwritten. It can at any later time iff it ends in a star (`RegisteredAgainExactly`, `StarTwice`).
- `Multi` of a column stores the operator of `Add`. What is printed means what the caller meant, under
  every valuation, iff no column is multiplied (`WrittenIsReadExactly`, `ColumnTimesTwo`).
- A selector that is built appends to what it holds, and a subquery is built each time a statement
  names it. `Build` adds just its statement iff every subquery in it, at every depth, is used once and
  held nothing (`BuildAddsStatementExactly`, `SqlBuilder.BuiltTwice`, `SubqueryUsedTwice`).
- `Inserter.Build` starts its arguments anew but not its text, so placeholders match arguments iff
  the builder held no placeholder before (`MatchExactly`, `SqlInsert.BuiltTwice`).
- Plain round robin serves every candidate once in a window iff the counter does not wrap inside the
  window or the number of candidates divides 2^64 (`WindowExact`, `WrappingWindow`).

## Model

| member | source | states |
|---|---|---|
| `WeightedRoundRobin.WeightPicker.Build` | rpc/homework2/loadbalance/roundrobin/weight_balancer.go:58-73 | a fresh picker holds every weight as current and as efficient weight, in any order of the ready connections |
| `WeightedRoundRobin.WeightPicker.Round` | rpc/homework2/loadbalance/roundrobin/weight_balancer.go:21-33 | the loop and the subtraction, on wrapping weights, are one step of `StepU32`, and the connection charged is the first with the largest weight |
| `WeightedRoundRobin.WeightPicker.Pick` | rpc/homework2/loadbalance/roundrobin/weight_balancer.go:14-52 | a run of calls goes through the states `AfterU32` and returns the connections `PickAtU32`; an empty picker reports an error |
| `WeightedRoundRobin.WinnerIs` | rpc/homework2/loadbalance/roundrobin/weight_balancer.go:28-31 | the winner is the first of the largest weights, and no other connection is |
| `WeightedRoundRobin.WeightInvariant` | rpc/homework2/loadbalance/roundrobin/weight_balancer.go:24-33 | after any number of picks the weights sum to the total T and none is below 1 - T |
| `WeightedRoundRobin.WeightBounds` | rpc/homework2/loadbalance/roundrobin/weight_balancer.go:24-33 | upper and lower bounds of every weight in every reachable state, also before the winner pays |
| `WeightedRoundRobin.WeightLedger` | rpc/homework2/loadbalance/roundrobin/weight_balancer.go:24-33 | a current weight is (k+1) times the weight less T for every pick of that connection |
| `WeightedRoundRobin.PrefixFairness` | rpc/homework2/loadbalance/roundrobin/weight_balancer.go:22-33 | after k picks a connection is ahead of its share, or behind it, by no more than a fixed amount |
| `WeightedRoundRobin.BeforePeriod` | rpc/homework2/loadbalance/roundrobin/weight_balancer.go:22-33 | after T - 1 picks one connection holds the whole total and all others hold nothing |
| `WeightedRoundRobin.FullPeriod` | rpc/homework2/loadbalance/roundrobin/weight_balancer.go:22-33 | T picks bring every weight back to where the builder put it |
| `WeightedRoundRobin.Periodic` | rpc/homework2/loadbalance/roundrobin/weight_balancer.go:22-33 | states and picks have period T from any point on |
| `WeightedRoundRobin.ExactShares` | rpc/homework2/loadbalance/roundrobin/weight_balancer.go:14-33 | any T consecutive picks, wherever they start, give each connection exactly as many picks as its weight |
| `WeightedRoundRobin.Congruent` | rpc/homework2/loadbalance/roundrobin/weight_balancer.go:26-33 | as long as the picks agree, the unsigned weights are the integer ones modulo 2^32 |
| `WeightedRoundRobin.ComparisonAgrees` | rpc/homework2/loadbalance/roundrobin/weight_balancer.go:28 | the unsigned comparison picks the integer winner iff no weight compared is negative |
| `WeightedRoundRobin.PicksAgreeExactly` | rpc/homework2/loadbalance/roundrobin/weight_balancer.go:22-33 | the unsigned picker makes the same first k picks as the integer one iff no integer weight is negative in those comparisons |
| `WeightedRoundRobin.AgreeForEverExactly` | rpc/homework2/loadbalance/roundrobin/weight_balancer.go:22-33 | the unsigned picker makes the same picks for ever iff no integer weight is negative in the comparisons of the first period |
| `WeightedRoundRobin.RoundExact` | rpc/homework2/loadbalance/roundrobin/weight_balancer.go:26-33 | from non-negative weights a round wraps nothing iff the winner holds at least the total |
| `WeightedRoundRobin.RunExactly` | rpc/homework2/loadbalance/roundrobin/weight_balancer.go:26-33 | for any number of connections the unsigned weights are the integer ones up to pick k iff in every one of these picks the winner holds at least the total before it pays |
| `WeightedRoundRobin.TwoCanPay` | rpc/homework2/loadbalance/roundrobin/weight_balancer.go:33 | with at most two positive weights the winner always holds at least the total |
| `WeightedRoundRobin.TwoNeverWrap` | rpc/homework2/loadbalance/roundrobin/weight_balancer.go:22-33 | with at most two positive weights the unsigned run is the integer run, for ever |
| `WeightedRoundRobin.ThreeGoNegative` | rpc/homework2/loadbalance/roundrobin/weight_balancer.go:33 | with three positive weights some weight is negative two picks before the period ends |
| `WeightedRoundRobin.NeverWrapsExactly` | rpc/homework2/loadbalance/roundrobin/weight_balancer.go:79-84 | the unsigned weights equal the integer ones in every state iff at most two weights are positive |
| `WeightedRoundRobin.FiveOneOne` | rpc/homework2/loadbalance/roundrobin/weight_balancer.go:28-33 | with weights 5, 1, 1 four picks agree and the fifth goes to connection 1 instead of 0 |
| `WeightedRoundRobin.OneOneOne` | rpc/homework2/loadbalance/roundrobin/weight_balancer.go:28-33 | with weights 1, 1, 1 the picks agree for ever although the weights do not |
| `RoundRobin.Picker.Pick` | rpc/homework2/loadbalance/roundrobin/balancer.go:17-46 | an instance comes back iff some instance passes the filter, and it passes; the 64-bit counter advances and chooses the candidate at its remainder; with no candidate the counter stays |
| `RoundRobin.PassingExact` | rpc/homework2/loadbalance/roundrobin/balancer.go:18-24 | the candidates are exactly the instances that pass the filter, each at its place once, in the order of the instances |
| `RoundRobin.WindowExact` | rpc/homework2/loadbalance/roundrobin/balancer.go:28-31 | m picks among the same m candidates take each exactly once iff the counter does not wrap inside the window or m divides 2^64 |
| `RoundRobin.WrappingWindow` | rpc/homework2/loadbalance/roundrobin/balancer.go:28-29 | with three candidates and a counter two below 2^64 the first candidate is taken twice in a row and the last not at all |
| `RouteTrie.AddRouteExact` | web/homework2/route.go:59-76 | the loop and the conflict rules amount to: a call succeeds iff the path can be added, what it then adds, and what a panic leaves |
| `RouteTrie.AcceptedExactly` | web/homework2/route.go:61-69 | the conflict rules spelled out: no empty segment, no other star or parameter child beside a star or parameter segment, and no handler at the path's own node |
| `RouteTrie.AddRouteAt` | web/homework2/route.go:61-76 | a call changes what a node holds at its own path only, takes no node away and adds only prefixes of its path |
| `RouteTrie.AddRouteKeepsWellFormed` | web/homework2/route.go:213-248 | every call, panicking or not, keeps prefixes closed, segments non-empty and star and parameter children exclusive |
| `RouteTrie.CanAddAfter` | web/homework2/route.go:214-237 | after a path was added another can be added iff it could before and the two ask for no two different wildcard or parameter children of one node |
| `RouteTrie.OrderIndependent` | web/homework2/route.go:59-76 | for two different paths, whether both can be added does not depend on the order, and then both orders give the same tree |
| `RouteTrie.TreeRefinesHistory` | web/homework2/route.go:27-78 | after any run of calls every node holds what the accepted calls for exactly its path built up, in order, and every accepted path has its nodes |
| `RouteTrie.OneCall` | web/homework2/route.go:67-76 | one call of a run: only an accepted one for just this path changes its node, and it appends its middlewares, sets its handler in place of none and, below the root, the route |
| `RouteTrie.MdlsBuiltUp` | web/homework2/route.go:51-55 | after any run a node's middlewares are those of all accepted calls for its path, one call after another |
| `RouteTrie.LastHandler` | web/homework2/route.go:70 | after any run a node's handler is that of the last accepted call for its path, and without any the node holds nothing |
| `RouteTrie.MdlsStay` | web/homework2/route.go:72-76 | the middlewares of a call stand after those the node had before it, and stay there |
| `RouteTrie.TwoCallsOneNode` | web/homework2/route.go:67-76 | a call without a handler and then one with a handler for the same path: the node has both middlewares, in order |
| `RouteTrie.NodesArePrefixes` | web/homework2/route.go:59-66 | if no call panicked the nodes are exactly the prefixes of the registered paths |
| `RouteTrie.NoSecondHandler` | web/homework2/route.go:67-69 | a path registered with a handler is never registered again, whatever is registered in between |
| `RoutePath.JoinUndoesSplit` | web/homework2/route.go:59 | joining the segments of a path gives the path back |
| `RoutePath.SplitExact` | web/homework2/route.go:59 | a path is split at every slash and nowhere else: no piece holds one, and the pieces are the only such list that joins to the path |
| `RoutePath.TrimExact` | web/homework2/route.go:92 | a request is split from its path without all slashes at both ends, and with all others |
| `RoutePath.RouteIsFullPath` | web/homework2/route.go:71 | after any run a node's route is "/" and its joined path if exactly that path was registered, and empty otherwise and at the root |
| `RoutePath.RegisteredRequest` | web/homework2/route.go:92 | a registered path sent as a request is split into the segments it was registered with |
| `RouteMatch.GreedyUnique` | web/homework2/route.go:95-104 | the lookup takes one way only |
| `RouteMatch.GreedyMatches` | web/homework2/route.go:191-206 | the node reached exists and its pattern matches the request segment by segment |
| `RouteMatch.FoundSegments` | web/homework2/route.go:191-206 | every segment of the pattern found is a star, begins with a colon or is the request's own segment |
| `RouteMatch.StuckIsLost` | web/homework2/route.go:97-100 | when the lookup gets stuck no node can be reached by it |
| `RouteMatch.StaticFindsItself` | web/homework2/route.go:198-205 | a node of static segments is found under its own name, whatever else is registered |
| `RouteMatch.ParamsAreLast` | web/homework2/route.go:256-262 | a parameter is set iff the pattern names it, to the segment at its last occurrence |
| `RouteMatch.LastNamed` | web/homework2/route.go:101-103 | the same for any way of reading a name from a segment, which both routers use |
| `RouteMatch.KidsExact` | web/homework2/route.go:118-127 | the children collected for a node are exactly those that match the segment, each once |
| `RouteMatch.LevelExact` | web/homework2/route.go:114-132 | level d of the search holds exactly the nodes at depth d whose pattern matches the first d segments, each once |
| `RouteMatch.LevelsExact` | web/homework2/route.go:110-142 | the nodes visited are exactly those whose pattern matches some prefix of the request, each once |
| `RouteMatch.SearchExact` | web/homework2/route.go:110-142 | the nodes visited are those that match a prefix of the request, each once; depth by depth, children of earlier nodes first, and star or parameter before static; and the result is cut into one block for each of them, in this order, which is its own list |
| `RouteMatch.VisitOrder` | web/homework2/route.go:114-132 | the order of any two visited nodes: by depth, then by the order of their parents, then star or parameter before static |
| `RouteMatch.MdlsBlock` | web/homework2/route.go:137-141 | the list of each visited node stands in the result right after those of the nodes visited before it |
| `RouteMatch.RootThenNode` | web/homework2/route.go:110-142 | a middleware at the root and one at a node below: a request for the node is given both, the root's first |
| `RouteMatch.FrontierBound` | web/homework2/route.go:114-136 | level d of the search has at most 2^d nodes |
| `RouteMatch.FoundNodeIsVisited` | web/homework2/route.go:105-107 | the node that the lookup finds is in the last level, so its own middlewares are collected |
| `Route.Node.ChildOf` | web/homework2/route.go:191-206 | static over parameter over star, and nothing only if no child matches |
| `Route.Node.ChildOrCreate` | web/homework2/route.go:213-248 | on linked nodes: the child is found, made or refused as on the tree's value; all other nodes stay linked as they were |
| `Route.AddNodes` | web/homework2/route.go:59-66 | the loop over the segments, with the tree it leaves when it panics on the way |
| `Route.Node.SetRoute` | web/homework2/route.go:70-76 | only the node's handler, route and middlewares change |
| `Route.Router.AddRoute` | web/homework2/route.go:27-78 | every tree of the router is the run of the calls made so far for its method; a call moves its own method's tree one step on and leaves the others alone |
| `Route.FindMdls` | web/homework2/route.go:110-142 | the breadth-first loop returns the middlewares of all levels in order, also when it ends early |
| `Route.Router.FindRoute` | web/homework2/route.go:82-108 | node, parameters and middlewares of a request, and failure iff the greedy lookup gets stuck |
| `RouteV1.ParseRegex` | web/homework1/route.go:294-305 | name and expression of a segment, from which the segment can be put together again |
| `RouteV1.RegexExactly` | web/homework1/route.go:294-299 | the segments with an expression are exactly those of the form :name(expr), and the parts are cut at the first parenthesis |
| `RouteV1.AddRouteExact` | web/homework1/route.go:53-83 | a call succeeds iff the path can be added, what it then adds, and that a panic leaves prefixes of the path only |
| `RouteV1.AcceptedExactly` | web/homework1/route.go:199-290 | the conflict rules spelled out: expressions compile, no other star or parameter child beside a star or parameter segment, and only a star's handler is replaced |
| `RouteV1.SecondRegistration` | web/homework1/route.go:79-82 | from any tree, not only one that a run reaches: right after a registration with a handler the same path is accepted again iff it ends in a star |
| `RouteV1.RegisteredAgainExactly` | web/homework1/route.go:70-83 | over whole runs: a path registered with a handler is registered again at a later time iff it ends in a star |
| `RouteV1.StarTwice` | web/homework1/route.go:79-82 | a star below the root registered twice: both calls succeed and the second handler stays |
| `RouteV1.AddRouteKeepsNodes` | web/homework1/route.go:70-83 | no call takes a node away, and a successful one has its own node |
| `RouteV1.RunsKeepWellFormed` | web/homework1/route.go:199-290 | after any run, recovered panics among it, no node has two children among its star, parameter and regular-expression children |
| `RouteV1.FoundIsSound` | web/homework1/route.go:100-121 | the node found exists, its pattern matches the segments it covers, and only a star node leaves segments over |
| `RouteV1.FoundSegments` | web/homework1/route.go:168-192 | every segment of the pattern found is a star, begins with a colon or is the request's own, and one with an expression matches it |
| `RouteV1.StarTakesRest` | web/homework1/route.go:109-112 | a star registered below a static segment is found for a request that goes on after it |
| `RouteV1.FoundUnique` | web/homework1/route.go:100-121 | a request is found at one node only |
| `RouteV1.StuckIsLost` | web/homework1/route.go:109-115 | when the lookup fails there is no node it could end at |
| `RouteV1.RegisteredStaticIsFound` | web/homework1/route.go:70-121 | a registered path of static segments finds its own node and no other, after whatever further calls |
| `RouteV1.ParamsAreLast` | web/homework1/route.go:116-118 | a name is set iff the pattern uses it, to the segment at its last use |
| `RouteV1Tree.Node.ChildOf` | web/homework1/route.go:168-192 | static first, then the one other child, and only if it matches |
| `RouteV1Tree.Node.ChildOrCreate` | web/homework1/route.go:199-216 | on linked nodes: the child is found, made in the slot its segment belongs in, or refused; an expression that does not compile changes nothing |
| `RouteV1Tree.Node.RegexChildOrCreate` | web/homework1/route.go:236-257 | a regular-expression child beside no other star, parameter or different regular-expression child |
| `RouteV1Tree.AddNodes` | web/homework1/route.go:70-78 | the loop over the segments, with the tree it leaves when it panics on the way |
| `RouteV1Tree.Tree.AddRoute` | web/homework1/route.go:28-36 | the tree is the run of the calls made so far, panicking ones among them; every node keeps type, path and links that fit its slot |
| `RouteV1Tree.Descend` | web/homework1/route.go:100-121 | the loop ends at the node found, at the end of the request or stuck at a star node, with its path parameters |
| `RouteV1Tree.Tree.FindRoute` | web/homework1/route.go:87-98 | node and parameters of a request, and failure iff there is no node to end at |
| `RedisLock.Redis.EvalLock` | cache/homework2/lua/lock.lua:1-13 | one atomic acquire: set in milliseconds, extended in seconds, or refused |
| `RedisLock.Redis.EvalRefresh` | cache/homework2/lua/refresh.lua:2-6 | one atomic, owner-checked extension |
| `RedisLock.Redis.EvalUnlock` | cache/homework2/lua/unlock.lua:1-5 | one atomic, owner-checked deletion |
| `RedisLock.FreshLockExactly` | cache/homework2/redis_lock.go:67-68 | a lock script on a free key succeeds iff the expiration is a positive whole number of seconds, and then lives for as many milliseconds |
| `RedisLock.RefreshExactly` | cache/homework2/lua/refresh.lua:2-3 | a refresh by the owner succeeds iff the expiration is a whole number of seconds, and then lives for the whole expiration |
| `RedisLock.LeaseIsInStore` | cache/homework2/lua/lock.lua:1-13 | after every run, the lease that a value has by the replies to its own scripts is the one the store has for it, with the same deadline |
| `RedisLock.MutualExclusion` | cache/homework2/lua/lock.lua:2-13 | over every interleaving of any clients' scripts with time, executed late or not and with replies lost or not, at most one value holds a live lease on a key |
| `RedisLock.SuccessExactly` | cache/homework2/redis_lock.go:132-157 | when lock, refresh and unlock succeed, exactly, and that the store stays when they do not |
| `RedisLock.DeadlineMovesForward` | cache/homework2/lua/refresh.lua:2-3 | while one value stays the owner of a key its deadline never moves backwards |
| `RedisLock.LeaseStays` | cache/homework2/lua/lock.lua:11-12 | no script of another caller, and none of its own but unlock, takes a live lease away |
| `RedisLock.RetrySucceeds` | cache/homework2/lua/lock.lua:6-9 | an acquire whose reply was lost succeeds when it is tried again before the lease ends, whatever others did in between |
| `RedisLock.PromiseBrokenExactly` | cache/homework2/lua/lock.lua:4-8 | a lease ends before the seconds asked for have gone by iff it set the key anew and the milliseconds have gone by |
| `RedisLock.TwoCallersAtOnce` | cache/homework2/lua/lock.lua:4 | two callers who asked for ten seconds have the lock at once, ten milliseconds apart |
| `RedisLock.CreateLock` | cache/homework2/redis_lock.go:64-80 | one try: the store after it, and that it wins iff its script replied OK and the reply arrived |
| `RedisLock.Lock` | cache/homework2/redis_lock.go:34-62 | the retry loop: which tries are made, the store after them, and which of the four results comes back |
| `RedisLock.WinnerOwnsKey` | cache/homework2/redis_lock.go:69-77 | after a try that won, the store holds the caller's value under the key |
| `RedisLock.LockedIsLive` | cache/homework2/redis_lock.go:34-62 | a call that returns a lock: right after its winning script, in whatever run it was part of, its value holds a live lease and no other value does, and the store it leaves is that of one run |
| `RedisLock.TimeoutLeavesKeyLocked` | cache/homework2/redis_lock.go:42-44 | a first try whose reply comes too late gives no lock, but the key is taken |
| `RedisLock.HeldLock.Refresh` | cache/homework2/redis_lock.go:132-142 | success, loss of the lock and other errors, each exactly, and the store after the call |
| `RedisLock.HeldLock.Unlock` | cache/homework2/redis_lock.go:144-157 | success, loss of the lock and other errors, each exactly; the refresher is stopped in any case |
| `RpcMessage.HeadLengthIsHeadSize` | rpc/homework1/message/message.go:100-112 | what `CalHeadLength` counts is the length of the encoded head, in every order of the map |
| `RpcMessage.DecodedIsClean` | rpc/homework1/message/message.go:69-94 | whatever the decoder returns has no separator in its names, keys and values |
| `RpcMessage.DecodeUndoesClean` | rpc/homework1/message/message.go:62-98 | decoding undoes encoding on clean requests with the right head length, for every order of the map |
| `RpcMessage.RequestBytes` | rpc/homework1/message/message.go:30-60 | every byte of an encoded request: three numbers big-endian, three single bytes, the names each with byte 10 after it, the pairs, the data |
| `RpcMessage.PairBytes` | rpc/homework1/message/message.go:50-57 | a pair is its key, byte 13, its value and byte 10, in the order in which the map was ranged over |
| `RpcMessage.ResponseBytes` | rpc/homework1/message/message.go:131-146 | every byte of an encoded response |
| `RpcMessage.ReqRoundTrip` | rpc/homework1/message/message.go:30-98 | with the head length that `CalHeadLength` counts, a request comes back unchanged iff its body length is right, the lengths do not overflow and it is clean |
| `RpcMessage.RespRoundTrip` | rpc/homework1/message/message.go:131-159 | a response comes back unchanged iff its two lengths are right and do not overflow; its bytes may be anything |
| `RpcCodec.EncodeReq` | rpc/homework1/message/message.go:30-60 | writing through the moving slice gives the message for some order of the map, panics iff the head does not fit, and writes every byte exactly once when the lengths are right |
| `RpcCodec.Request.CalHeadLength` | rpc/homework1/message/message.go:100-112 | the head length is the size of the head cut to 32 bits, and nothing else changes |
| `RpcCodec.DecodeReq` | rpc/homework1/message/message.go:62-98 | scanning for separators gives the decoded value, and panics iff a slice is out of range |
| `RpcCodec.DecodeMeta` | rpc/homework1/message/message.go:82-93 | the loop over the pairs |
| `RpcCodec.EncodeResp` | rpc/homework1/message/message.go:131-146 | as for requests, without a map |
| `RpcCodec.DecodeResp` | rpc/homework1/message/message.go:148-159 | as for requests, without names and pairs |
| `RpcCodec.ReadMsg` | rpc/homework1/tcp.go:13-34 | the next message is as long as its two lengths say, added in 32 bits; a short stream, or lengths below eight, are errors |
| `RpcCodec.ReadAllUndoesConcat` | rpc/homework1/tcp.go:13-34 | reading the concatenation of framed messages gives exactly these messages and uses up the stream |
| `RpcCodec.StreamOfRequests` | rpc/homework1/tcp.go:27-33 | reading and decoding a stream of encoded requests gives the requests back, in order, with nothing left over |
| `RpcCodec.StreamOfResponses` | rpc/homework1/message/message.go:127-159 | the same for responses with arbitrary error and data bytes |
| `SqlGrammar.VisibleTokens` | orm/homework3/builder.go:142-184 | what the mutually recursive printers write, but for spaces, is the expression with every nested one in parentheses |
| `SqlGrammar.YieldBalanced` | orm/homework3/builder.go:158-184 | every reading has balanced parentheses |
| `SqlGrammar.ReadOneWay` | orm/homework3/builder.go:142-184 | however the tokens of an expression are grouped, in a grammar without precedence, the result has its meaning |
| `SqlGrammar.PrintingPreservesMeaning` | orm/homework3/builder.go:110-184 | the printed tokens can be read, and every reading has the value of the expression under every valuation |
| `SqlGrammar.WrittenIsRead` | orm/homework3/predicate.go:46-74 | whatever is written with the methods of columns, aggregates, arithmetic and predicates is printed so that it can be read, and without a multiplied column every reading means what the caller meant |
| `SqlGrammar.WrittenIsReadExactly` | orm/homework3/column.go:57-63 | every reading means what the caller meant, under every valuation, iff no column is multiplied |
| `SqlGrammar.ColumnTimesTwo` | orm/homework3/column.go:57-63 | a column that holds 5, multiplied by 2, is printed as something that is read as 7 |
| `SqlGrammar.BuiltMeans` | orm/homework3/expression.go:27-65 | the values that the methods build are printable shapes, and mean what was written if no column is multiplied |
| `SqlGrammar.ReadInSql` | orm/homework3/column.go:66-87 | with the usual meaning of the operators every reading of what is printed has the value of the caller's comparisons, connectives and sums, if no column is multiplied |
| `SqlGrammar.ListMeansConjunction` | orm/homework3/builder.go:102-108 | a list of predicates is true iff all members are and false iff one is, also with a three-valued AND |
| `SqlText.WeaveIs` | orm/homework3/builder.go:86-91 | raw text with as many question marks as arguments keeps its text and its arguments, one placeholder for each |
| `SqlText.PlaceholdersMatch` | orm/homework3/builder.go:93-100 | in a text whose question marks are placeholders only, the i-th question mark is the place of the i-th argument, and there are as many of both |
| `SqlBuilder.Builder.BuildExpression` | orm/homework3/builder.go:110-140 | writes the tokens of the expression one after another up to the first that fails: what every builder holds then, the subqueries' among them, is a function of what they held before |
| `SqlBuilder.Builder.BuildBinaryExpr` | orm/homework3/builder.go:142-156 | left side, operator and right side, each only if it is there, and what is left where one fails |
| `SqlBuilder.Builder.BuildSubExpr` | orm/homework3/builder.go:158-184 | a nested binary expression goes in parentheses, anything else does not |
| `SqlBuilder.Builder.BuildPredicates` | orm/homework3/builder.go:102-108 | the loop builds the conjunction of the list and writes it |
| `SqlBuilder.Builder.BuildColumn` | orm/homework3/builder.go:20-35 | the column's text with its table's alias; it fails iff the name is unknown, and then only the alias stays written |
| `SqlBuilder.Selector.AppendTo` | orm/homework3/builder.go:207-217 | the subquery is built in its own builder, and all that builder holds then is taken over in parentheses without its semicolon, with its arguments after those that are there; if it fails nothing is taken over |
| `SqlBuilder.Selector.BuildColumns` | orm/homework3/select.go:151-176 | the selected columns with their aliases up to the first that is unknown or cannot be selected |
| `SqlBuilder.Selector.BuildTable` | orm/homework3/select.go:92-114 | the table, join or subquery after FROM, at any depth, and what every builder holds then |
| `SqlBuilder.Selector.BuildJoin` | orm/homework3/select.go:116-149 | both sides, the kind of the join, its USING and ON clauses, in parentheses, up to the first that fails |
| `SqlBuilder.Selector.Build` | orm/homework3/select.go:33-90 | success and what every builder holds after it, failed calls included, as a function of what they held before; if the subqueries are used once and held nothing, the text and the arguments are those of the statement; placeholders match arguments in any case |
| `SqlStatement.StatementIs` | orm/homework3/select.go:33-90 | the text of a statement from the fields of its selector: each clause with its keyword, in order and only if it is not empty, the limit after LIMIT, the offset after OFFSET, a semicolon at the end |
| `SqlStatement.SelectTextIs` | orm/homework3/select.go:151-176 | a star without columns, otherwise the columns in order with their aliases and commas |
| `SqlStatement.TableTextIs` | orm/homework3/select.go:92-149 | tables, aliases, joins with their kind, USING and ON, and derived tables, at any depth |
| `SqlStatement.ExprTextIs` | orm/homework3/builder.go:142-184 | sides, operators, spaces and parentheses of an expression |
| `SqlStatement.AllTextIs` | orm/homework3/builder.go:102-108 | a list of predicates joined by AND from left to right |
| `SqlStatement.ColumnTexts` | orm/homework3/builder.go:20-35 | a column in quotes with its table's alias, and an aggregate around it |
| `SqlStatement.SubqueryTexts` | orm/homework3/builder.go:207-217 | a subquery is its statement in parentheses without the semicolon, after ANY, ALL or SOME if it has one |
| `SqlStatement.CannotBeSelected` | orm/homework3/select.go:171-172 | a selector with a column that is no column, aggregate or raw text never builds |
| `SqlStatement.EveryClause` | orm/homework3/select.go:33-90 | the whole text of a statement that has every clause, with each placeholder's argument |
| `SqlStatement.JoinOn` | orm/homework3/select.go:116-149 | the whole text of two tables joined on a condition |
| `SqlBuilder.BuildAddsStatementExactly` | orm/homework3/select.go:33-90 | `Build` adds just the statement, its subqueries at every depth spelled out, iff the builders of all of them are used once in it and held nothing before, and more otherwise |
| `SqlBuilder.BuildSucceedsExactly` | orm/homework3/select.go:33-90 | `Build` succeeds iff all names are known and all columns can be selected, in the subqueries as well, whatever the builders hold |
| `SqlBuilder.BuiltTwice` | orm/homework3/select.go:85-89 | a selector built twice holds its statement twice iff it has no subquery |
| `SqlBuilder.SubqueryUsedTwice` | orm/homework3/builder.go:207-217 | a statement that names a subquery twice has its text doubled in the second place |
| `SqlBuilder.SelectFromSubquery` | orm/homework3/builder.go:207-222 | the whole text of a selection from a subquery, and that it uses the subquery once |
| `SqlBuilder.BuilderPlaceholdersMatch` | orm/homework3/builder.go:93-100 | after any run of Build calls, repeated and failed ones among them, the i-th question mark of the text was written for the i-th argument, and the counts are equal |
| `SqlBuilder.ArgumentsInOrder` | orm/homework3/select.go:75-83 | the arguments of a statement are those of its values, raw texts, limit and offset and of its subqueries, at every depth, in the order in which the statement names them |
| `SqlInsert.Inserter.Build` | orm/homework3/insert.go:73-140 | the statement is appended to the text and the arguments start anew; it fails iff there are no rows, no model, an unknown column or a value without the field, and then the text and the arguments end where the first of these was met |
| `SqlInsert.InsertShape` | orm/homework3/insert.go:81-134 | the table, the quoted names of the fields in order, and for each row a list of as many placeholders, all with commas |
| `SqlInsert.ColumnsSplit` | orm/homework3/insert.go:100-105 | the name at place k of the column list is that of field k |
| `SqlInsert.FieldsExact` | orm/homework3/insert.go:85-95 | with chosen columns field k is that of column k and there are as many; an unknown name is the only reason to fail |
| `SqlInsert.BrokenIsBeginning` | orm/homework3/insert.go:108-126 | a call that fails at a value has written the beginning of the statement it would have finished |
| `SqlInsert.TwoFields` | orm/homework3/insert.go:73-139 | one row of two fields: the whole text and the arguments |
| `SqlInsert.ArgumentAt` | orm/homework3/insert.go:108-126 | argument number r * F + f is field f of row r |
| `SqlInsert.PlaceholderOfField` | orm/homework3/insert.go:108-126 | after a first Build the placeholder of field f in row r has r * F + f others before it, and the argument of that number is that field |
| `SqlInsert.MatchExactly` | orm/homework3/insert.go:99 | placeholders match arguments iff the text held no placeholder before |
| `SqlInsert.BuiltTwice` | orm/homework3/insert.go:99 | one row of one field built twice: two placeholders in the text and one argument |

## Left out

- `WeightPicker.Pick` and plain `Pick` are single atomic steps; the mutex and the atomic counter are not modelled. Weights are given as 32-bit numbers: how they are read from the resolver's attributes is not modelled.
- WeightedRoundRobin.PicksAgreeExactly: assumes 3T + (n-1)(T-1) <= 2^32, so that no addition of non-negative weights overflows; beyond that the sums themselves wrap. `NeverWrapsExactly` assumes 2T < 2^32.
- The least-active and fastest balancers: the one never changes the counts it compares, the other is an argmin over values fetched by HTTP.
- The regular-expression engine is a parameter, for which expressions compile and what they match. `web/homework1` is modelled for one HTTP method; its trees for different methods are independent, as proved for `web/homework2`.
- Handlers and middlewares are tokens. The order in which a server applies the middlewares that `findMdls` returns is not modelled; neither is `childrenOf`, which nothing calls. A nil and an empty map or slice are one value; `root.mdls = ms` shares the caller's slice in Go and copies it here.
- RedisLock.MutualExclusion: is about leases as the scripts grant them, not about the seconds that the caller asked for; `PromiseBrokenExactly` says when these differ. Every call of `Lock` has its own value, as fresh uuids give it.
- Redis: an entry is gone when its deadline is reached, a script is atomic, and there is one node. A duration is whole seconds or not; the rounding of very long durations with a fraction to a floating-point number is not modelled.
- `AutoRefresh` and the retry strategies: `Lock` takes what the strategy, the context, the network and other clients do as a list of tries, and nothing is said about liveness.
- Decoders read slices bounded by their length; Go bounds some of them by their capacity, which a caller can make larger. One `Read` of a connection returns all that is asked for if the stream has it.
- SqlGrammar.PrintingPreservesMeaning: is about tokens. Raw text, values, columns and subqueries are operands that are not looked into, and splitting the characters into tokens is not modelled.
- Column and table names come from `Schema`, a parameter, and hold no question mark; `colName` and the model registry are not part of this model. Raw text has as many question marks as arguments, as its callers must see to.
- Selectors have levels, and a statement contains statements of lower levels only: a selector inside itself, on which `Build` does not end, is left out.
- The setters of the builders, `AsSubquery`, and the constructors of tables and joins only fill in fields.
- The upsert clause of INSERT, UPDATE and DELETE, running statements, reflection and result sets.
- The caches of `cache/homework1`, graceful shutdown, transactions, gRPC and etcd wiring, serializers, compressors, templates and code generation.
