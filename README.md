# obs-browser out-of-process core, modelled in Dafny

This project models the core of an OBS browser-source plugin whose Chromium
Embedded Framework (CEF) engine runs in a separate server process. The plugin
and the server talk over gRPC. The model covers five parts:

- **Text conversion** (`deps/wide-string.cpp`, non-Windows branch).
  - `utf8_to_wchar` decodes UTF-8 into 32-bit wide characters.
  - `wchar_to_utf8` encodes them back.
  - `os_utf8_to_wcs` and both `to_wide` overloads wrap the decoder.
  - Files: `utf8.dfy` (reference functions), `utf8_laws.dfy` (properties),
    `wide_string.dfy` (decoder), `encoder.dfy` (encoder), `to_wide.dfy` (wrappers).
- **Server session registry** (`obs-browser-server.cpp`, `browser-client.cpp`, `browser-client.hpp`).
  - Each gRPC handler is a method on `BrowserServers.BrowserServer`.
  - The server keeps a map of session ids to `BrowserClient` objects and a queue of tasks for the CEF thread.
  - Each `BrowserClient` holds five parked reply slots (reactor, reply, armed flag). The CEF callbacks complete
    these slots.
  - Every completed reactor is appended to a log. The model proves that no reactor is finished twice.
  - Files: `rpc.dfy` (messages and the log), `browser_client.dfy`, `browser_server.dfy`, `audio_layout.dfy`.
- **Engine initialisation** (`obs-browser-server.cpp` and `obs_browser_server.cc`).
  - The packed OBS version, the product-version string, the Accept-Language list and the frame-rate settings.
  - The single-browser variant of the service.
  - File: `engine_init.dfy`.
- **Browser source** (`obs-browser-source.cpp`, `obs-browser-source.hpp`).
  - A `BrowserSources.BrowserSource` class with the settings, flags, textures and audio streams the source
    updates in place.
  - Each request the source sends to the server is a `Call` value appended to the `sent` field.
  - The global intrusive list of sources is `BrowserSources.SourceList`.
  - The local-file URL rewriting is in `url_rewrite.dfy`.
- **Plugin decisions** (`obs-browser-plugin.cpp`).
  - The source defaults, the start path of the file dialog and the show/hide/activate/deactivate callbacks.
  - The adapter count, the device blacklist and the hardware-acceleration decision.
  - File: `plugin.dfy`.

Things outside the model are parameters:

- CEF, the graphics system and DXGI.
  - `CreateBrowserSync` becomes an `Option<Browser>` argument.
  - `CefURIEncode` becomes a `uriEncode` function argument.
  - `obs_source_showing` becomes a boolean.
  - The adapter list becomes a sequence of descriptors.
- Calls the server makes to a browser are appended to a `hostCalls` log.
- Tasks it queues to the CEF thread are appended to a `tasks` queue. `RunTask` runs the first one.

## Model

| member | source | states |
|---|---|---|
| Utf8.Width | deps/wide-string.cpp:306-321 | the UTF-8 length chosen for a non-negative wide character is between 1 and 6 bytes |
| Utf8.EncodeSymbol | deps/wide-string.cpp:331-374 | the byte shuffle for width n produces exactly n bytes |
| Utf8Laws.SymbolRoundTrip | deps/wide-string.cpp:331-374 | the bytes written for any non-negative wide character announce their own length, continue with 10xxxxxx bytes and assemble back to that character; the lead byte is 0 only for U+0000 and is a byte utf8_forbidden rejects (0xF5) exactly for 0x140000..0x17FFFF |
| Utf8Laws.SymbolDecodesIff | deps/wide-string.cpp:107-118 | one encoded character decodes back to itself if and only if errors are ignored or it lies outside 0x140000..0x17FFFF, whose lead byte 0xF5 the decoder rejects |
| Utf8Laws.DecodeEncode | deps/wide-string.cpp:292-382 | for non-NUL, non-surrogate characters the decoder accepts, decoding the encoder's output gives back the input, minus U+FEFF when SKIP_BOM drops it |
| Utf8Laws.RoundTrip | deps/wide-string.cpp:147-253 | without flags, for code points U+0001..U+10FFFF other than surrogates: encoding succeeds, decoding gives the same characters, and counting mode and writing mode (with room for them) both return their number |
| Utf8Laws.StopsAtNul | deps/wide-string.cpp:162-164 | decoding stops at the first NUL byte: the bytes after it change nothing |
| Utf8Laws.MalformedRejected | deps/wide-string.cpp:166-219 | without UTF8_IGNORE_ERROR, a forbidden or unknown lead byte, a truncated sequence or a bad continuation byte after valid text makes the whole call return 0 |
| Utf8Laws.TruncatedIsBad | deps/wide-string.cpp:196-202 | a lead byte announcing more bytes than remain is a bad sequence |
| Utf8Laws.StoreIsKept | deps/wide-string.cpp:237-249 | whatever the writing mode stores is exactly the decoded characters minus the dropped ones |
| Utf8Laws.KeptMembers | deps/wide-string.cpp:237-247 | a character is kept if and only if it was decoded and the flags do not drop it |
| Utf8Laws.StoreRejectsSurrogate | deps/wide-string.cpp:237-239 | without UTF8_IGNORE_ERROR, a decoded surrogate makes the write fail |
| Utf8Laws.StoreRoom | deps/wide-string.cpp:226-227 | without flags and surrogates, the write succeeds if and only if the characters fit in outsize |
| Utf8Laws.CountMatchesWrite | deps/wide-string.cpp:221-227 | a successful write returns the same count as counting mode; when nothing is dropped it succeeds exactly when that count fits in outsize |
| Utf8Laws.StoreNoFlags | deps/wide-string.cpp:237-249 | without flags nothing is dropped: a successful store writes every decoded character |
| Utf8Laws.StoreBound | deps/wide-string.cpp:226-227 | a successful store never writes past outsize |
| Utf8Laws.DecodeResultBound | deps/wide-string.cpp:226-227 | the count returned in writing mode is at most outsize |
| Utf8Laws.StoreAppend | deps/wide-string.cpp:226-249 | storing two runs of characters is storing the first, then the second after it |
| WideString.Utf8ToWchar | deps/wide-string.cpp:147-253 | returns 0 for a null input or a zero-size output buffer; otherwise returns the reference result for the readable bytes (insize bytes, or up to NUL when insize is 0), writes exactly the kept characters, never more than outsize, and leaves the buffer past outsize untouched |
| WideString.DecodeLoop | deps/wide-string.cpp:162-250 | the decoding loop's count and written prefix equal the reference decoder's on the bytes before lim |
| WideString.ReadSequence | deps/wide-string.cpp:163-219 | classifies the sequence at p: rejected (the whole call fails), skipped (only under UTF8_IGNORE_ERROR) or accepted with the lead byte's length, high bits and valid continuation bytes |
| WideString.LeadClass | deps/wide-string.cpp:172-194 | the mask chain on the lead byte gives the reference sequence length and high bits |
| WideString.ContinuationsAt | deps/wide-string.cpp:208-219 | the continuation check succeeds if and only if the next n-1 bytes are all 10xxxxxx within the limit |
| WideString.AssembleAt | deps/wide-string.cpp:229-235 | the shift-or loop computes the reference value of the sequence |
| WideString.Emit | deps/wide-string.cpp:221-249 | one accepted sequence extends the count, and in writing mode the buffer, as the reference store does; a failure means the reference store fails |
| WideString.Put | deps/wide-string.cpp:226-249 | writing one character succeeds if and only if the reference store succeeds, and then the buffer prefix equals the stored characters |
| Encoder.WcharToUtf8 | deps/wide-string.cpp:276-385 | returns 0 for a null input or a zero-size output buffer; otherwise returns the reference encoder's size for the readable characters, writes exactly its bytes, never more than outsize, and leaves the rest of the buffer untouched |
| Encoder.EncodeLoop | deps/wide-string.cpp:292-382 | the encoding loop's total and written prefix equal the reference encoder's on the characters before the limit |
| Utf8Laws.WidthIsShortest | deps/wide-string.cpp:306-321 | the width chosen for a non-negative character is the shortest whose payload bits (7 for one byte, 7 - n in the lead and 6 per continuation otherwise) hold its value |
| Encoder.ByteCount | deps/wide-string.cpp:310-321 | the encoder's byte count is the shortest width whose payload bits hold the value, the same width the reference encoding uses |
| Encoder.WriteSymbol | deps/wide-string.cpp:331-374 | writes the reference encoding at p and changes no other byte |
| ToWide.StrLen | deps/wide-string.cpp:396 | the length of a C string is the index of its first NUL |
| ToWide.BoundedByStrLen | deps/wide-string.cpp:396 | decoding strlen(str) bytes gives the same characters as decoding to the NUL (insize 0) |
| ToWide.InputLength | deps/wide-string.cpp:396 | the input length is `len`, or strlen when `len` is 0, and the decoder reads the same characters under either bound |
| ToWide.OsUtf8ToWcs | deps/wide-string.cpp:387-411 | corrected wrapper: with no destination it returns the decoded count; with one, the terminator lands inside dst_size and the prefix holds the decoded characters |
| ToWide.TerminatorInBuffer | deps/wide-string.cpp:397-407 | in the corrected wrapper the terminator index is always below dst_size |
| ToWide.OsUtf8ToWcsAsWritten | deps/wide-string.cpp:387-411 | wrapper as written: the returned length can equal dst_size, and the terminator is written at that index; the buffer must hold dst_size cells and that index; a non-zero length is followed by the decoded characters |
| ToWide.TerminatorPastBuffer | deps/wide-string.cpp:397-407 | for "ab" with dst_size 2, the wrapper as written puts the terminator at index 2, one past the buffer |
| ToWide.WrappersAgreeAtCountPlusOne | deps/wide-string.cpp:397-405 | at dst_size equal to the decoded count plus one, the wrapper as written and the corrected one return the same length, which is at most the count |
| ToWide.Convert | deps/wide-string.cpp:426-429 | the resize-then-decode step of to_wide, calling the wrapper as written with the count plus one, yields the decoded characters of the input |
| ToWide.ToWideCStr | deps/wide-string.cpp:415-430 | a null pointer gives an empty string; otherwise the result is the decoding of the C string: empty when the bytes are rejected or decode to nothing, and, when the count succeeds but the conversion fails on a surrogate, a string of the counted length starting with a 0 character |
| ToWide.ToWideString | deps/wide-string.cpp:432-446 | the result is the decoding of the std::string's bytes: empty when they are rejected or decode to nothing, and a string of the counted length starting with a 0 character when the conversion fails on a surrogate |
| ToWide.ToWideOfVersusIntended | deps/wide-string.cpp:432-446 | the source's result equals the intended one (the characters, or empty on any failure) except exactly when the count succeeds and the conversion fails, where it is a 0-led string instead of an empty one |
| ToWide.EncodedSurrogate | deps/wide-string.cpp:221-239 | the bytes ED A0 80 are assembled into U+D800, which the write mode refuses to store |
| ToWide.EncodedSurrogateAsWritten | deps/wide-string.cpp:432-446 | to_wide as written turns the encoded surrogate into the one-character string holding 0 |
| ToWide.ConvertChecked | deps/wide-string.cpp:426-429 | the resize-then-decode step with the conversion's result checked gives the intended result |
| ToWide.ToWideCStrChecked | deps/wide-string.cpp:415-430 | to_wide(const char *) with the conversion checked: null gives empty, otherwise the intended result |
| ToWide.ToWideStringChecked | deps/wide-string.cpp:432-446 | to_wide(const std::string &) with the conversion checked gives the intended result |
| ToWide.EncodedSurrogateChecked | deps/wide-string.cpp:432-446 | with the conversion checked, the encoded surrogate gives an empty string |
| AudioLayouts.Convert2CEFSpeakerLayout | browser-client.cpp:222-242 | the channel count maps to LAYOUT_UNSUPPORTED if and only if it is not 1..6 or 8 |
| AudioLayouts.GetSpeakerLayout | obs-browser-source.cpp:97-122 | a CEF layout maps to SPEAKERS_UNKNOWN exactly for the unsupported layout, 2.1 and the layouts not listed |
| AudioLayouts.SpeakerChannels | obs-browser-source.cpp:143-144 | a speaker layout has 0 channels if and only if it is SPEAKERS_UNKNOWN |
| AudioLayouts.ChannelCountRoundTrip | browser-client.cpp:222-242 | a channel count of 1, 2, 4, 5, 6 or 8 survives the trip to a CEF layout and back to speakers; 3 (2.1) and unsupported counts come back UNKNOWN |
| BrowserClients.PlanesShape | browser-client.cpp:277-283 | the packet reply holds one plane per channel, each the first frames*4 bytes of that channel |
| BrowserClients.Answer | browser-client.hpp:64-82 | completing the one parked reactor of a slot keeps every reactor finished at most once |
| BrowserClients.DrainStep | browser-client.cpp:27-41 | finishing and disarming all of one slot's parked reactors keeps the log valid and leaves the other slots as they were |
| BrowserClients.Rearm | browser-client.hpp:64-82 | parking a fresh reactor in a slot keeps the waiting state valid |
| BrowserClients.BrowserClient.constructor | browser-client.hpp:89-94 | a new client has the given sharing and reroute flags and five idle slots |
| BrowserClients.BrowserClient.ViewRect | browser-client.cpp:109-131 | 16x16 without a browser; otherwise each side is the session's size, or 1 where that size is 0 |
| BrowserClients.BrowserClient.OnPaint | browser-client.cpp:133-156 | only a view paint with an armed paint slot and a non-empty first byte completes the slot, appending width*height*4 bytes; nothing else changes |
| BrowserClients.BrowserClient.OnAcceleratedPaint | browser-client.cpp:158-168 | an armed begin-frame slot is completed with the shared handle; otherwise nothing happens |
| BrowserClients.BrowserClient.OnAudioStreamPacket | browser-client.cpp:270-292 | an armed packet slot is completed with the channels' planes, frames and pts; otherwise nothing happens |
| BrowserClients.BrowserClient.OnAudioStreamStartedAsWritten | browser-client.cpp:255-268 | as written: completes the started slot whenever a reactor and a reply are present, armed or not |
| BrowserClients.BrowserClient.OnAudioStreamStarted | browser-client.cpp:255-268 | corrected: completes the started slot only when it is armed, so the log stays finish-once |
| BrowserClients.BrowserClient.OnAudioStreamStoppedAsWritten | browser-client.cpp:294-302 | as written: completes the stopped slot whenever a reactor and a reply are present |
| BrowserClients.BrowserClient.OnAudioStreamStopped | browser-client.cpp:294-302 | corrected: completes the stopped slot only when armed |
| BrowserClients.BrowserClient.Release | browser-client.cpp:27-41 | the destructor finishes the parked reactors of the started, stopped, packet and begin-frame slots (not paint); the log stays finish-once |
| BrowserClients.BrowserClient.ArmPaint | obs-browser-server.cpp:857-861 | parks a fresh reactor in the paint slot and arms it |
| BrowserClients.BrowserClient.ParkBeginFrame | obs-browser-server.cpp:510-516 | finishes the previously parked begin-frame reactor if armed, then parks and arms the new one |
| BrowserClients.BrowserClient.ArmStarted | obs-browser-server.cpp:796-799 | parks and arms the started slot |
| BrowserClients.BrowserClient.ArmPacket | obs-browser-server.cpp:812-818 | parks and arms the packet slot and records the requested channel count |
| BrowserClients.BrowserClient.ArmStopped | obs-browser-server.cpp:833-836 | parks and arms the stopped slot |
| BrowserClients.BrowserClient.CancelPaint | obs-browser-server.cpp:541-551 | an armed paint slot is answered with width and height 0 and disarmed |
| BrowserClients.BrowserClient.SetBrowser | obs-browser-server.cpp:374-380 | sets the session's browser and changes nothing else |
| BrowserClients.BrowserClient.Configure | obs-browser-server.cpp:348-351 | copies width, height, reroute flag and CSS into the session |
| BrowserClients.StartedTwiceAsWritten | browser-client.cpp:255-268 | two started callbacks after one request finish the same reactor twice |
| BrowserClients.StartedOnce | browser-client.cpp:255-268 | with the corrected callback the same scenario finishes it once |
| BrowserServers.Probe | obs-browser-server.cpp:416 | indexing the registry with operator[] inserts a null entry for an unknown id and leaves other entries alone |
| BrowserServers.IsValidHandleValue | obs-browser-server.cpp:66-69 | a handle is valid if and only if it is neither null nor INVALID_HANDLE_VALUE |
| BrowserServers.BrowserServer.constructor | obs-browser-server.cpp:46-58 | the server as the handlers find it after IntializeBrowserCEF: no sessions, no tasks, no shutdown, no client process handle, and the manager thread running |
| BrowserServers.BrowserServer.ExecuteOnBrowser | obs-browser-server.cpp:213-229 | queues the action for the browser when one is present, otherwise nothing |
| BrowserServers.BrowserServer.Command | obs-browser-server.cpp:440-465 | generic handler shape: probes the id, queues the action only for a live session with a browser, answers the call |
| BrowserServers.BrowserServer.SetShowing | obs-browser-server.cpp:412-438 | queues a Visibility message to a live session's browser and answers |
| BrowserServers.BrowserServer.SetActive | obs-browser-server.cpp:440-465 | queues an Active message to a live session's browser and answers |
| BrowserServers.BrowserServer.Refresh | obs-browser-server.cpp:467-487 | queues ReloadIgnoreCache to a live session's browser and answers |
| BrowserServers.BrowserServer.SendInput | obs-browser-server.cpp:580-782 | mouse, wheel, focus and key events are forwarded to a live session's browser only, and every call is answered |
| BrowserServers.BrowserServer.CreateBrowserSource | obs-browser-server.cpp:311-391 | queues the creation task and answers at once; the registry is not yet changed |
| BrowserServers.BrowserServer.RunCreateTask | obs-browser-server.cpp:327-385 | replaces the id's entry with a fresh client holding the request's settings and five idle slots, launches with the computed frame settings, and only if creation succeeded mutes audio (when rerouted) and sends visibility |
| BrowserServers.BrowserServer.RunTask | obs-browser-server.cpp:207-211 | runs the first queued task: a browser action is delivered, a creation task creates the session, the quit task does nothing more |
| BrowserServers.BrowserServer.UpdateVideoFPSAsWritten | obs-browser-server.cpp:393-410 | as written: a live session whose browser creation failed is dereferenced (NullDereference) and no answer is sent |
| BrowserServers.BrowserServer.UpdateVideoFPS | obs-browser-server.cpp:393-410 | corrected: the frame rate is set only on a live session with a browser, and the call is always answered |
| BrowserServers.BrowserServer.SignalBeginFrame | obs-browser-server.cpp:489-517 | for a live session: queues SendExternalBeginFrame, finishes the previously armed begin-frame reactor and parks the new one without answering, leaving the other four slots and the session settings unchanged; otherwise answers at once |
| BrowserServers.BrowserServer.OnAudioStreamStarted | obs-browser-server.cpp:784-800 | a live session parks and arms the started slot, finishing nothing and leaving the other slots and the settings unchanged; an unknown id is answered at once |
| BrowserServers.BrowserServer.OnAudioStreamPacket | obs-browser-server.cpp:802-819 | a live session parks the packet slot and records the channel count, the only setting that changes, leaving the other slots unchanged; an unknown id is answered |
| BrowserServers.BrowserServer.OnAudioStreamStopped | obs-browser-server.cpp:821-837 | a live session parks and arms the stopped slot, finishing nothing and leaving the other slots and the settings unchanged; an unknown id is answered |
| BrowserServers.BrowserServer.RequestPaint | obs-browser-server.cpp:839-862 | queues a begin frame; an already armed paint slot answers the new call at once, otherwise the new reactor is parked; no other slot, setting or finish changes |
| BrowserServers.BrowserServer.DestroyBrowserSource | obs-browser-server.cpp:519-559 | for a live session: queues hide-and-close, answers an armed paint with 0x0 (finishing nothing otherwise), clears the browser and erases the id, leaving the other slots and settings unchanged; every call is answered |
| BrowserServers.BrowserServer.SafeCloseHandle | obs-browser-server.cpp:71-77 | closes and nulls a valid handle; leaves an invalid one; afterwards the handle is never valid |
| BrowserServers.BrowserServer.TerminateCEF | obs-browser-server.cpp:231-242 | a running manager thread is sent one quit task and stops |
| BrowserServers.BrowserServer.MonitorClient | obs-browser-server.cpp:244-255 | records the client handle; unless shutdown was already requested, terminates CEF and starts one shutdown thread |
| BrowserServers.BrowserServer.ShutdownBrowserCEF | obs-browser-server.cpp:561-578 | terminates CEF, sets shutdown, closes the handle, starts one shutdown thread and answers |
| BrowserServers.BrowserServer.ShutdownServer | obs-browser-server.cpp:79-91 | stops the server and closes the client handle |
| BrowserServers.NewSession | obs-browser-server.cpp:332-349 | a new session client carries the request's settings, the created browser and idle slots |
| BrowserServers.ShutdownThenMonitor | obs-browser-server.cpp:244-255 | after ShutdownBrowserCEF, the monitor thread's exit starts no second shutdown thread and queues no second quit |
| BrowserServers.FailedCreateThenUpdateVideoFPS | obs-browser-server.cpp:404-405 | a creation whose browser is null, followed by UpdateVideoFPS, reaches the null dereference |
| EngineInit.DecodeVersion | obs-browser-server.cpp:117-120 | the packed OBS version splits into major < 256, minor < 256 and patch < 65536 |
| EngineInit.VersionRoundTrip | obs-browser-server.cpp:117-120 | repacking the three fields gives back the packed version |
| EngineInit.VersionFieldsRoundTrip | obs-browser-server.cpp:117-120 | unpacking in-range fields after packing gives them back |
| EngineInit.DecimalString | obs-browser-server.cpp:122-131 | std::to_string gives a non-empty string of digits |
| EngineInit.DecimalRoundTrip | obs-browser-server.cpp:122-131 | reading the digits back gives the number |
| EngineInit.DottedInjective | obs-browser-server.cpp:122-131 | dot-separated numbers followed by a non-digit tail determine the numbers and the tail |
| EngineInit.ProductVersionInjective | obs-browser-server.cpp:122-131 | the product-version string determines both the Chrome version and the OBS version |
| EngineInit.AcceptLanguageShape | obs-browser-server.cpp:140-147 | the Accept-Language list starts with the locale and ends with "en-US,en", and equals "en-US,en" exactly when the locale is en-US |
| EngineInit.Truncate | obs-browser-server.cpp:364-365 | the double-to-int conversion truncates toward zero |
| EngineInit.FrameRate | obs-browser-server.cpp:355-369 | external begin frames are used if and only if the build has shared textures and external begin frames and the fps is not custom |
| EngineInit.OneClock | obs-browser-server.cpp:355-369 | external begin frames go with a frame rate of 0; a custom fps is used as given; otherwise the canvas fps is truncated |
| EngineInit.SingleBrowserService.constructor | obs_browser_server.cc:153-162 | the service starts with no client, no browser and no pending creation |
| EngineInit.SingleBrowserService.CreateBrowserSource | obs_browser_server.cc:177-187 | stores the request and queues one creation |
| EngineInit.SingleBrowserService.RunCreateTask | obs_browser_server.cc:187-230 | creates the client from the stored request, launches, and only if the browser exists mutes audio (when rerouted) and sends Visibility and Active |
| EngineInit.TwoCreates | obs_browser_server.cc:179-189 | two creations queued before the tasks run both launch with the second request's settings |
| UrlRewrite.FindFrom | obs-browser-source.cpp:427-439 | finds the first occurrence of the pattern at or after a position, or reports there is none |
| UrlRewrite.Find | obs-browser-source.cpp:427-439 | std::string::find: the first occurrence, or none if and only if the pattern never occurs |
| UrlRewrite.ReplaceFrom | obs-browser-source.cpp:435-439 | the left-to-right replacement of the remaining text is no longer than that text |
| UrlRewrite.ReplaceAllNone | obs-browser-source.cpp:435-439 | a text without the pattern is left unchanged |
| UrlRewrite.FirstSplit | obs-browser-source.cpp:435-439 | replacing all occurrences replaces the first with "/" and continues after it |
| UrlRewrite.ReplaceAt | obs-browser-source.cpp:436 | replace(pos, n, "/") puts "/" at pos and keeps the text on both sides |
| UrlRewrite.ReplaceStep | obs-browser-source.cpp:435-439 | one in-place replacement does not change the final result of replacing all |
| UrlRewrite.ReplaceEach | obs-browser-source.cpp:435-439 | the find/replace loop equals the left-to-right replacement, removes every occurrence and creates no occurrence of another slash-free pattern |
| UrlRewrite.DriveColon | obs-browser-source.cpp:426-433 | only on Windows, and only when an encoded colon comes before the first encoded slash, is the URL changed |
| UrlRewrite.LocalFilePath | obs-browser-source.cpp:423-453 | the local-file URL starts with the build's prefix and its path holds no encoded slash or backslash |
| UrlRewrite.LowerAscii | obs-browser-source.cpp:456 | ASCII case folding for astrcmpi_n: upper-case letters move by 32, other characters stay |
| UrlRewrite.RewriteAbsoluteShape | obs-browser-source.cpp:455-462 | with file URLs enabled an http://absolute/ URL becomes file:/// plus its path and is local; without them nothing changes; the rewrite is idempotent |
| UrlRewrite.LocalFileScheme | obs-browser-source.cpp:423-453 | a non-empty local file becomes a local URL with the file:// prefix or, for older CEF, the http://absolute/ prefix |
| UrlRewrite.RemoteUrlUnchanged | obs-browser-source.cpp:419-462 | a remote URL that does not start with http://absolute/ is used as typed and is not local |
| UrlRewrite.ResolveSourceUrl | obs-browser-source.cpp:419-462 | the URL step of Update computes the reference resolution with the encoder's output |
| BrowserSources.Candidate | obs-browser-source.cpp:397-470 | the settings read by Update: a local file is always local; a remote URL not starting with http://absolute/ is kept as typed; sizes, fps, CSS, reroute and shutdown flags are copied |
| BrowserSources.AfterDestroyTextures | obs-browser-source.hpp:93-105 | destroying textures releases the texture and the extra texture, if any, and leaves nothing alive |
| BrowserSources.DestroyTexturesIdempotent | obs-browser-source.hpp:93-105 | destroying textures twice is the same as once |
| BrowserSources.RemoveFirst | obs-browser-source.cpp:180-190 | removing a present audio source shortens the list by one; an absent one leaves it unchanged |
| BrowserSources.RemoveFirstAt | obs-browser-source.cpp:180-190 | the erase loop removes exactly the first occurrence and nothing else (same multiset minus one copy) |
| BrowserSources.CreateRequest | obs-browser-source.cpp:219-229 | the creation request carries hwaccel, size, fps settings, canvas fps, URL, CSS and reroute flag of the current settings |
| BrowserSources.BrowserSource.constructor | obs-browser-source.cpp:71-83 | a new source has the initial settings, first_update set, no browser requested and nothing sent |
| BrowserSources.BrowserSource.DestroyTextures | obs-browser-source.hpp:93-105 | the textures become AfterDestroyTextures of the old ones |
| BrowserSources.BrowserSource.DestroyBrowser | obs-browser-source.cpp:233-236 | sends one DestroyBrowserSource call with the given async flag |
| BrowserSources.BrowserSource.CreateBrowser | obs-browser-source.cpp:219-229 | sends the creation request, then an audio-started request when audio is rerouted, and reports success |
| BrowserSources.BrowserSource.Update | obs-browser-source.cpp:395-495 | unchanged settings are a no-op; otherwise the new settings are stored, the browser is destroyed asynchronously, textures are destroyed, a browser is requested unless shut down while invisible, and first_update is cleared |
| BrowserSources.BrowserSource.SetShowing | obs-browser-source.cpp:303-322 | records visibility; with shutdown-when-invisible, hiding destroys the browser and showing re-runs Update; otherwise forwards SetShowing and, on a shared-texture Windows build, clears reset_frame when shown without custom fps |
| BrowserSources.BrowserSource.SetActive | obs-browser-source.cpp:324-327 | sends one SetActive call |
| BrowserSources.BrowserSource.Refresh | obs-browser-source.cpp:329-332 | sends one Refresh call |
| BrowserSources.BrowserSource.Tick | obs-browser-source.cpp:498-505 | a pending browser request sends the creation once and is cleared; on shared-texture Windows builds without custom fps reset_frame is set |
| BrowserSources.BrowserSource.SignalBeginFrame | obs-browser-source.cpp:351-362 | when reset_frame is set, sends SignalBeginFrame (hwaccel) or RequestPaint and clears it; otherwise sends nothing |
| BrowserSources.BrowserSource.OnAudioStreamStarted | obs-browser-source.cpp:126-146 | the stream entry is created if missing, gets an audio line only once, and takes the speaker layout, its channel count and the sample rate |
| BrowserSources.BrowserSource.OnAudioStreamStopped | obs-browser-source.cpp:174-196 | an unknown stream changes nothing; a known one is erased and its audio line removed from the list once |
| BrowserSources.UpdateSettles | obs-browser-source.cpp:463-470 | applying the same settings a second time sends nothing more |
| BrowserSources.UpdateThenTick | obs-browser-source.cpp:487-505 | changed settings without shutdown-when-invisible lead, at the next tick, to exactly one destroy followed by one creation with the new settings |
| BrowserSources.CreateSource | obs-browser-source.cpp:71-83 | a new source is linked at the head of the global list, which stays well formed |
| BrowserSources.DestroySource | obs-browser-source.cpp:85-94 | the destructor destroys the browser synchronously, destroys textures and unlinks the source, keeping the rest of the list in order |
| BrowserSources.SourceList.constructor | obs-browser-source.cpp:71-83 | the global list starts empty |
| BrowserSources.SourceList.Insert | obs-browser-source.cpp:71-83 | linking puts the source at the head; the list stays well formed (next and prev_next pointers agree) |
| BrowserSources.SourceList.Remove | obs-browser-source.cpp:85-94 | unlinking removes exactly that source and keeps the order of the others |
| Plugin.Defaults | obs-browser-plugin.cpp:65-86 | default URL, size 800x600, 30 fps, custom fps only without shared textures, audio rerouted only on macOS, default CSS |
| Plugin.DefaultsApply | obs-browser-plugin.cpp:135-150 | the defaults lie in the property ranges, resolve to the remote default URL and differ from a new source's settings, so the first update creates a browser |
| Plugin.LastIndexOf | obs-browser-plugin.cpp:124 | strrchr finds the last occurrence of the character, or reports none |
| Plugin.Slashed | obs-browser-plugin.cpp:123 | every backslash becomes a slash and nothing else changes |
| Plugin.StartPath | obs-browser-plugin.cpp:119-127 | the file dialog starts in the URL's directory: the slashed URL cut after its last slash; empty without a URL |
| Plugin.Activate | obs-browser-plugin.cpp:300-305 | activation refreshes first when restart-when-active is set, then sends SetActive(true) |
| Plugin.Deactivate | obs-browser-plugin.cpp:306-308 | deactivation sends SetActive(false) |
| Plugin.Show | obs-browser-plugin.cpp:294-296 | show is SetShowing(true) |
| Plugin.Hide | obs-browser-plugin.cpp:297-299 | hide is SetShowing(false) |
| Plugin.CountedAdapters | obs-browser-plugin.cpp:314-341 | counts the adapters whose description could be read, except Microsoft's basic renderer; zero exactly when there is no other |
| Plugin.EmptyNeverBlacklisted | obs-browser-plugin.cpp:346-347 | an empty device name matches no blacklist entry |
| Plugin.PluginState.constructor | obs-browser-plugin.cpp:52-56 | hardware acceleration off, no adapters, empty device name |
| Plugin.PluginState.EnumAdapterCount | obs-browser-plugin.cpp:314-341 | adds the counted adapters when the factory is created, and takes the first adapter's description as the device name |
| Plugin.PluginState.CheckHwaccelSupport | obs-browser-plugin.cpp:354-391 | never turns acceleration on; on Windows turns it off for a blacklisted device unless it is a lone Intel adapter; on macOS turns it off before 10.15 |
| Plugin.LoadHwaccelAsWritten | obs-browser-plugin.cpp:453-461 | as written: only a shared-texture build reads the setting, any other build keeps acceleration off; the adapters are never enumerated, so on a Windows shared-texture build acceleration is exactly the stored setting |
| Plugin.LoadHwaccel | obs-browser-plugin.cpp:453-461 | corrected: enumeration runs first, so the Windows blacklist sees the real device; acceleration is off without shared textures and never on unless the setting is |
| Plugin.Radeon7660Blacklisted | obs-browser-plugin.cpp:346-347 | "AMD Radeon HD 7660" matches the blacklist |
| Plugin.Radeon7660NotIntel | obs-browser-plugin.cpp:349-352 | "AMD Radeon HD 7660" is not an Intel device |
| Plugin.BlacklistedAdapterAsWritten | obs-browser-plugin.cpp:354-375 | with a single AMD Radeon HD 7660 adapter, the load as written keeps acceleration on while the corrected load turns it off |

## Left out

- Threads, mutexes and the CEF task thread are not modelled. Each handler runs atomically. A queued task runs
  only when `RunTask` is called.
- BrowserServers.BrowserServer.ExecuteOnBrowser: the synchronous mode (async false) is modelled like the
  asynchronous one. The wait on a condition variable with no predicate is not modelled. That wait never ends when
  the browser is null, because nothing is queued to signal it.
- BrowserServers.BrowserServer.TerminateCEF: the retry loop around `QueueCEFTask` and the thread join are taken to
  succeed at once.
- `OpenProcess` and `WaitForSingleObject` in `MonitorClient` are not modelled. The process handle is a parameter,
  and the wait is taken to have ended.
- BrowserServers.BrowserServer.DestroyBrowserSource: erasing the entry drops a reference to the client, and the
  client's destructor finishes its parked started, stopped, packet and begin-frame reactors (`Release`). The model
  does not run that destructor here, nor in RunCreateTask, whose `insert_or_assign` drops the client it replaces.
  When it runs depends on CEF's own references to the client, which are not modelled.
- BrowserServers.BrowserServer.constructor: the server starts with `managerRunning` true, the state after
  IntializeBrowserCEF has started the manager thread. IntializeBrowserCEF is not modelled.
- BrowserServers.BrowserServer.RunTask: tasks queued after the quit task can still be run. The model has no state
  for an ended message loop.
- BrowserServers.BrowserServer.RequestPaint: the handler indexes the registry before it checks the id. The model
  requires a live session instead of modelling that unguarded lookup.
- RegisterPID, IntializeBrowserCEF, BrowserInit, BrowserManagerThread, RunServer and main are not modelled. They
  start processes and the CEF runtime.
- CEF itself is not modelled: browser creation, message sending, rendering, popups and context menus. Browser
  creation is an `Option<Browser>` argument. Messages and host calls are logged values.
- CefURIEncode is the `uriEncode` argument. The model proves what holds for any encoder.
- Rendering is not modelled: RenderFrame, Render, RenderSharedTexture, texture creation and
  obs_source_output_video/audio. Textures are opaque numbers.
- The legacy audio path is modelled only for CEF builds 3683 to 4102. The stubs for build 4103 and later do
  nothing. ClearAudioStreams is empty in the source and is not modelled.
- BrowserSource::OnAudioStreamPacket is not modelled. It builds an audio frame and hands it to OBS.
- The BrowserSource input forwarders are not modelled: SendMouseClick, SendMouseMove, SendMouseWheel, SendFocus
  and SendKeyClick. They only forward to the client stubs. The server side is modelled by `SendInput`.
- obs-browser-client.cpp and obs-browser-client.hpp are not part of this model. These gRPC client stubs are
  represented by the `Call` log.
- The constructor's `obs_source_update(source, nullptr)` is a deferred OBS update. The model does not run Update
  from the constructor.
- BrowserClient's OnLoadEnd, OnConsoleMessage, OnBeforePopup, OnProcessMessageReceived and GetAudioParameters are
  not modelled. They only talk to CEF or log.
- The Windows branch of deps/wide-string.cpp is not modelled. It delegates to the operating system's converter.
- DXGI is not modelled. In `EnumAdapterCount` it is replaced by an argument. The argument is a list of adapter
  descriptors, `None` where GetDesc fails.
- Case folding in `wstrstri` and `astrcmpi_n` is modelled for ASCII letters only.
- The property-sheet callbacks and the translated labels of the plugin are not modelled: is_local_file_modified,
  is_fps_custom and the property texts.
- Widths are unbounded. The `uint32_t` width and height and the `int` fps are modelled as unbounded
  naturals/integers, because no operation in the core does arithmetic on them that could wrap. The packed OBS
  version and wide characters keep their 32-bit width.
- `wchar_t` is taken as 32 bits, as on Linux and macOS.

## Findings

| source | as written | input that shows it | evidently intended | confidence | as-written member | corrected member |
|---|---|---|---|---|---|---|
| deps/wide-string.cpp:397-407 | `os_utf8_to_wcs` decodes into `dst_size` characters, then writes the terminator at `dst[out_len]` | `"ab"`, len 2, `dst_size` 2: two characters are written, then the terminator at index 2 | decode at most `dst_size - 1` characters so that the terminator stays inside the buffer | high, not executed | ToWide.OsUtf8ToWcsAsWritten | ToWide.OsUtf8ToWcs |
| obs-browser-server.cpp:404-405 | `UpdateVideoFPS` dereferences `cefBrowser` of a live session without checking it | CreateBrowserSource whose `CreateBrowserSync` returns null, then UpdateVideoFPS for that id | skip the frame-rate change when the session has no browser and still answer the call | high, not executed | BrowserServers.BrowserServer.UpdateVideoFPSAsWritten | BrowserServers.BrowserServer.UpdateVideoFPS |
| browser-client.cpp:255-268 | the legacy audio-started and audio-stopped callbacks finish the parked reactor whenever one is stored, without checking or clearing the pending flag | one OnAudioStreamStarted request, then two started callbacks from CEF: the same reactor is finished twice | finish only a pending reactor and clear the flag, as the packet callback does | medium, not executed | BrowserClients.StartedTwiceAsWritten | BrowserClients.StartedOnce |
| deps/wide-string.cpp:440-445 | `to_wide` keeps the counted size even when the conversion into it fails | the bytes ED A0 80 (an encoded U+D800): the count is 1, the conversion fails on the surrogate, and the result is one 0 character | return an empty string for invalid input, as for input that fails the count | medium, not executed | ToWide.EncodedSurrogateAsWritten | ToWide.ToWideStringChecked |
| obs-browser-plugin.cpp:453-461 | `EnumAdapterCount` is defined but never called before `check_hwaccel_support`, so the adapter count stays 0 and the device name stays empty | a machine whose only adapter is "AMD Radeon HD 7660": the blacklist never matches and acceleration stays on | enumerate the adapters before checking the blacklist | medium, not executed | Plugin.BlacklistedAdapterAsWritten | Plugin.LoadHwaccel |

`to_wide` itself is not affected by the first finding. It passes the decoded count plus one as `dst_size`, and
at that size the wrapper as written returns the count and puts its terminator in the string's own terminator
cell (`ToWide.WrappersAgreeAtCountPlusOne`). `ToWide.Convert` therefore calls the wrapper as written.
